/** What every finished call decided, in the terms of its request and of what the world
    answered: when it went on, when it stopped, and what it returned. */
module Decisions {
  import opened Wrappers
  import opened Text
  import opened Budget
  import opened Policy
  import opened Deadline
  import opened RoundTrip

  // ----- the terms -----

  /** The caller was told not to retry. */
  predicate Flagged(r: Request) {
    r.ctx.noMoreRetry || EqualUpToCase(Trim(r.headers.noMoreRetry), "true")
  }

  /** No deadline in force is before this time. */
  ghost predicate InTime(r: Request, t: int) {
    forall d :: InForce(d, r.headers.requestDeadline, r.ctx.deadline, r.policy.maxElapsedTime, r.resolvedAt) ==> t <= d
  }

  /** A retryable error; or no error, and a status the policy retries, where 429 takes its
      own switch beside. */
  predicate RetryableOutcome(r: Request, k: nat) {
    var a := r.env(k);
    match a.error
    case Some(DeadlineExceeded) => true
    case Some(Transport(retryable)) => retryable
    case Some(_) => false
    case None =>
      && a.response.Some? && r.policy.retryOnStatuses.Some?
      && a.response.value.status in r.policy.retryOnStatuses.value
      && (a.response.value.status == 429 ==> r.policy.retryOn429)
  }

  /** Everything but the budget allows another attempt after attempt `k`: the limit, the flag,
      a body that can be sent again, the outcome, and the time, now and after the wait. */
  ghost predicate MayGoOn(r: Request, k: nat) {
    var a, delay := r.env(k), DelayAfter(r, k);
    && k < r.policy.maxRetries && !Flagged(r) && (r.hasBody ==> r.hasGetBody)
    && RetryableOutcome(r, k)
    && InTime(r, a.judgedAt)
    && (delay > 0 ==> InTime(r, a.delayedAt + delay))
  }

  predicate CannotReplay(r: Request, k: nat) {
    k > 0 && r.hasGetBody && r.env(k).replayError.Some?
  }

  /** Attempt `k` cannot be made: its body cannot be had again, or a deadline has come. */
  ghost predicate CannotPrepare(r: Request, k: nat) {
    CannotReplay(r, k) || !InTime(r, r.env(k).checkedAt + 1)
  }

  function PrepareError(r: Request, k: nat): Option<Error> {
    if CannotReplay(r, k) then r.env(k).replayError else Some(DeadlineExceeded)
  }

  /** The limit the caller's policy gives is negative and nothing brings it to zero. */
  predicate NothingAllowed(r: Request) {
    r.policy.maxRetries < 0 && !Flagged(r)
  }

  // ----- they are the loop's -----

  lemma FlaggedExactly(r: Request)
    ensures NoMoreRetry(r) <==> Flagged(r)
  {
    BoolHeaderExactly(r.headers.noMoreRetry);
    hide ParseBoolHeader, EqualUpToCase, Trim;
  }

  lemma LimitExactly(r: Request, k: nat)
    ensures k < MaxRetries(r) <==> k < r.policy.maxRetries && !Flagged(r) && (r.hasBody ==> r.hasGetBody)
    ensures MaxRetries(r) < 0 <==> NothingAllowed(r)
    ensures Flagged(r) || (r.hasBody && !r.hasGetBody) ==> MaxRetries(r) <= 0
  {
    FlaggedExactly(r);
    hide NoMoreRetry, Flagged;
  }

  lemma InTimeExactly(r: Request, t: int)
    ensures InTime(r, t) <==> (Overall(r).Some? ==> t <= Overall(r).value)
  {
    OverallIsEarliest(r.headers.requestDeadline, r.ctx.deadline, r.policy.maxElapsedTime, r.resolvedAt);
    hide InForce, OverallDeadline;
  }

  lemma PrepareExactly(r: Request, k: nat)
    ensures PrepareAttempt(r, k).Err? <==> CannotPrepare(r, k)
    ensures PrepareAttempt(r, k).Err? ==> Some(PrepareAttempt(r, k).error) == PrepareError(r, k)
  {
    InTimeExactly(r, r.env(k).checkedAt + 1);
    hide InTime, MaxRetries, NoMoreRetry, Overall, FormatBool, FormatDeadline;
  }

  lemma SentFlag(r: Request, k: nat)
    requires PrepareAttempt(r, k).Ok?
    ensures ParseBoolHeader(PrepareAttempt(r, k).value.headers.noMoreRetry) <==> k == MaxRetries(r) || NoMoreRetry(r)
  {
    BoolHeaderRoundTrip(k == MaxRetries(r) || NoMoreRetry(r));
    hide MaxRetries, NoMoreRetry, Overall, FormatBool, FormatDeadline, ParseBoolHeader;
  }

  lemma OutcomeExactly(r: Request, k: nat)
    ensures RetryableOutcome(r, k) <==>
      var a := r.env(k);
      if a.error.Some? then IsRetryableError(a.error.value)
      else a.response.Some? && StatusRetryable(r.policy, a.response.value.status)
  {
  }

  lemma FlagInContext(r: Request)
    ensures r.ctx.noMoreRetry ==> Flagged(r)
  {
  }

  lemma JustifiedExactly(r: Request, k: nat)
    requires PrepareAttempt(r, k).Ok?
    ensures Justified(r, k, PrepareAttempt(r, k).value) <==> MayGoOn(r, k)
  {
    hide MaxRetries, Flagged, InTime, RetryableOutcome, PrepareAttempt, Overall, ParseBoolHeader, DelayAfter,
      StatusRetryable, IsRetryableError, NoMoreRetry;
    var a, sent, overall := r.env(k), PrepareAttempt(r, k).value, Overall(r);
    SentFlag(r, k);
    FlaggedExactly(r);
    LimitExactly(r, k);
    OutcomeExactly(r, k);
    InTimeExactly(r, a.judgedAt);
    InTimeExactly(r, a.delayedAt + DelayAfter(r, k));
    FlagInContext(r);
    assert ShouldRetry(r, k, sent) <==>
      && k < MaxRetries(r) && !Flagged(r) && RetryableOutcome(r, k) && InTime(r, a.judgedAt);
    assert WaitOverruns(r, k) <==> DelayAfter(r, k) > 0 && !InTime(r, a.delayedAt + DelayAfter(r, k));
    hide ShouldRetry, WaitOverruns;
  }

  lemma SentAsPrepared(r: Request, answers: seq<bool>, k: nat)
    requires k < |Exec(r, answers).sent|
    ensures PrepareAttempt(r, k) == Ok(Exec(r, answers).sent[k])
  {
    ExecInv(r, answers);
    hide Exec, PrepareAttempt, PositionOk, ReservationsOk, ResourcesOk, DecisionsOk;
  }

  /** An attempt that was sent was followed up as justified exactly when it might be. */
  lemma SentJustified(r: Request, answers: seq<bool>, k: nat)
    requires k < |Exec(r, answers).sent|
    ensures PrepareAttempt(r, k).Ok?
    ensures Justified(r, k, Exec(r, answers).sent[k]) <==> MayGoOn(r, k)
  {
    SentAsPrepared(r, answers, k);
    JustifiedExactly(r, k);
    hide Exec, Justified, MayGoOn, PrepareAttempt;
  }

  // ----- what a finished call did -----

  /** The call went on exactly as long as it might, unless the budget, the wait or the next
      attempt stopped it. */
  ghost predicate WentOnRightly(r: Request, s: State) {
    var n := |s.sent|;
    && (forall k :: 0 <= k < n - 1 ==> MayGoOn(r, k) && !WaitFailed(r, k))
    && (n > 0 && MayGoOn(r, n - 1) ==> s.suppressed || WaitFailed(r, n - 1) || CannotPrepare(r, n))
    && (s.suppressed ==> n > 0 && MayGoOn(r, n - 1))
    && (n == 0 ==> NothingAllowed(r) || CannotPrepare(r, 0))
    && (Flagged(r) || (r.hasBody && !r.hasGetBody) ==> n <= 1)
  }

  /** The outcome of the last attempt, untouched. */
  predicate OwnOutcome(r: Request, s: State) {
    var n := |s.sent|;
    && n > 0 && s.finalErr == r.env(n - 1).error
    && s.finalResp == if r.env(n - 1).response.Some? then Some(n - 1) else None
  }

  /** What it came to: the outcome of the last attempt as it was, the error that cut the wait
      short, or the error that prevented the next attempt. */
  ghost predicate ResultRight(r: Request, s: State) {
    var n := |s.sent|;
    if n == 0 && NothingAllowed(r) then s.finalResp == None && s.finalErr == None
    else if n > 0 && (s.suppressed || !MayGoOn(r, n - 1)) then OwnOutcome(r, s)
    else if n > 0 && WaitFailed(r, n - 1) then s.finalResp == None && s.finalErr == r.env(n - 1).waitError
    else s.finalResp == None && s.finalErr == PrepareError(r, n)
  }

  lemma NoneSent(r: Request, answers: seq<bool>)
    requires Finished(r, answers)
    ensures
      var n := |Exec(r, answers).sent|;
      (n == 0 ==> MaxRetries(r) < 0 || PrepareAttempt(r, 0).Err?) && (n > 0 ==> n - 1 <= MaxRetries(r))
  {
    ExecInv(r, answers);
    hide Exec, Justified, PrepareAttempt, MaxRetries, WaitFailed, SentOk, ReservationsOk, ResourcesOk;
  }

  lemma RetriesExactly(r: Request, answers: seq<bool>)
    requires Finished(r, answers)
    ensures WentOnRightly(r, Exec(r, answers))
  {
    hide Exec, Justified, MayGoOn, CannotPrepare, PrepareAttempt, MaxRetries, Flagged, NothingAllowed, WaitFailed;
    var s := Exec(r, answers);
    var n := |s.sent|;
    RetriesAreJustified(r, answers);
    NoneSent(r, answers);
    LimitExactly(r, 0);
    PrepareExactly(r, n);
    PrepareExactly(r, 0);
    forall k | 0 <= k < n
      ensures Justified(r, k, s.sent[k]) <==> MayGoOn(r, k)
    {
      SentJustified(r, answers, k);
    }
  }

  // ----- what it returns -----

  predicate EndOk(r: Request, s: State) {
    var n := |s.sent|;
    && (s.pc.AtAttempt? && n == 0 ==> s.finalErr.None?)
    && (s.pc.AtGiveBack? || Over(s.pc) ==>
          if s.suppressed then OwnOutcome(r, s)
          else if n == 0 then
            if MaxRetries(r) < 0 then s.finalResp.None? && s.finalErr.None?
            else s.finalResp.None? && PrepareAttempt(r, 0).Err? && s.finalErr == Some(PrepareAttempt(r, 0).error)
          else if !Justified(r, n - 1, s.sent[n - 1]) then OwnOutcome(r, s)
          else if WaitFailed(r, n - 1) then s.finalResp.None? && s.finalErr == r.env(n - 1).waitError
          else s.finalResp.None? && PrepareAttempt(r, n).Err? && s.finalErr == Some(PrepareAttempt(r, n).error))
    && (s.requestBodyClosed <==> (s.pc.AtGiveBack? || Over(s.pc)) && n == 0 && MaxRetries(r) >= 0 && r.hasBody)
  }

  lemma AttemptEnds(r: Request, s: State)
    requires Inv(r, s) && EndOk(r, s) && s.pc.AtAttempt?
    ensures EndOk(r, StepAttempt(r, s))
  {
    hide PrepareAttempt, MaxRetries, Justified, WaitFailed, SentOk, ReservationsOk, ResourcesOk, Succeeded, BodyPresent,
      Settle, HasPending;
  }

  lemma JudgeEnds(r: Request, s: State)
    requires Inv(r, s) && EndOk(r, s) && s.pc.AtJudge?
    ensures EndOk(r, StepJudge(r, s))
  {
    hide PrepareAttempt, MaxRetries, ShouldRetry, WaitOverruns, WaitFailed, SentOk, ReservationsOk, ResourcesOk,
      Succeeded, BodyPresent;
  }

  lemma BackoffEnds(r: Request, s: State)
    requires Inv(r, s) && EndOk(r, s) && s.pc.AtBackoff?
    ensures EndOk(r, StepBackoff(r, s))
  {
    hide PrepareAttempt, MaxRetries, Justified, DelayAfter, SentOk, ReservationsOk, ResourcesOk, Succeeded, BodyPresent,
      HasPending, DiscardBodies, DiscardContexts;
  }

  lemma StepEnds(r: Request, s: State, granted: bool)
    requires Inv(r, s) && EndOk(r, s)
    ensures EndOk(r, Step(r, s, granted))
  {
    hide PrepareAttempt, MaxRetries, Justified, WaitFailed, SentOk, ReservationsOk, ResourcesOk, Succeeded, BodyPresent,
      Settle, HasPending, DiscardBodies, DiscardContexts;
    match s.pc
    case AtAttempt => AttemptEnds(r, s);
    case AtJudge => JudgeEnds(r, s);
    case AtReserve =>
    case AtBackoff => BackoffEnds(r, s);
    case AtGiveBack =>
    case AtCredit =>
    case AtDone =>
  }

  lemma StartEnds(r: Request)
    ensures EndOk(r, START)
  {
    hide MaxRetries;
  }

  lemma {:induction false} ExecEnds(r: Request, answers: seq<bool>)
    ensures EndOk(r, Exec(r, answers))
  {
    hide Step, EndOk, Inv;
    if answers == [] {
      StartEnds(r);
    } else {
      var before := answers[..|answers| - 1];
      ExecEnds(r, before);
      ExecInv(r, before);
      StepEnds(r, Exec(r, before), answers[|answers| - 1]);
    }
  }

  lemma SuppressedWasSent(r: Request, answers: seq<bool>)
    requires Finished(r, answers)
    ensures Exec(r, answers).suppressed ==> Exec(r, answers).sent != []
  {
    RetriesAreJustified(r, answers);
    hide Exec, Justified, WaitFailed, PrepareAttempt;
  }

  /** Every finished call returns what it should; and the body of a request that was never
      sent is closed. */
  lemma ResultExactly(r: Request, answers: seq<bool>)
    requires Finished(r, answers)
    ensures
      var s := Exec(r, answers);
      && ResultRight(r, s)
      && (s.requestBodyClosed <==> s.sent == [] && !NothingAllowed(r) && r.hasBody)
  {
    hide Exec, Justified, MayGoOn, CannotPrepare, PrepareAttempt, MaxRetries, NothingAllowed, WaitFailed, PrepareError;
    var s := Exec(r, answers);
    var n := |s.sent|;
    ExecEnds(r, answers);
    NoneSent(r, answers);
    LimitExactly(r, 0);
    PrepareExactly(r, n);
    SuppressedWasSent(r, answers);
    if n > 0 {
      SentJustified(r, answers, n - 1);
    }
  }

  lemma DenialSuppresses(r: Request, s: State, granted: bool)
    ensures Step(r, s, granted).suppressed ==> s.suppressed || (s.pc.AtReserve? && !granted)
  {
    hide PrepareAttempt, MaxRetries, ShouldRetry, WaitOverruns, DelayAfter, HasPending, Settle, Succeeded,
      DiscardBodies,
      DiscardContexts, BodyPresent;
  }

  /** A call without a budget is never suppressed. */
  lemma {:induction false} SuppressedOnlyWhenDenied(r: Request, answers: seq<bool>)
    ensures Exec(r, answers).suppressed ==> exists i :: 0 <= i < |answers| && !answers[i]
  {
    if answers != [] {
      var before, last := answers[..|answers| - 1], answers[|answers| - 1];
      SuppressedOnlyWhenDenied(r, before);
      DenialSuppresses(r, Exec(r, before), last);
      assert forall i :: 0 <= i < |before| ==> before[i] == answers[i];
      hide Step;
    }
  }
}
