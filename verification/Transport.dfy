/** RoundTrip as written: one loop over mutable variables, a real budget, reservation
    handles. It is proved to be the step machine of module RoundTrip run to completion
    against the atomic bucket, so what holds of every finished call holds of it. */
module TransportLoop {
  import opened Wrappers
  import opened Budget
  import opened Deadline
  import opened RoundTrip
  import opened Decisions

  /** One step of a call that is alone with its budget. */
  function StepAlone(r: Request, s: State, m: Balances): (State, Balances) {
    match s.pc
    case AtReserve =>
      var (after, granted) := AfterReserve(m, r.downstream, r.budget);
      (Step(r, s, granted), after)
    case AtGiveBack => (Step(r, s, true), AfterRefund(m, r.downstream, r.budget))
    case AtCredit => (Step(r, s, true), AfterSuccess(m, r.downstream, r.budget))
    case _ => (Step(r, s, true), m)
  }

  lemma DropAlone(r: Request, s: State, m: Balances)
    requires Inv(r, s) && !s.pc.AtDone?
    ensures
      var t := StepAlone(r, s, m).0;
      Inv(r, t) && 0 <= Measure(r, t) < Measure(r, s)
  {
    hide Inv, Step, Measure;
    StepLowersMeasure(r, s, AfterReserve(m, r.downstream, r.budget).1);
    StepLowersMeasure(r, s, true);
  }

  /** The rest of the call, to its end. */
  function Complete(r: Request, s: State, m: Balances): (result: (State, Balances))
    requires Inv(r, s)
    ensures Inv(r, result.0) && result.0.pc.AtDone?
    decreases if s.pc.AtDone? then 0 else Measure(r, s) + 1
  {
    if s.pc.AtDone? then (s, m)
    else
      var (t, after) := StepAlone(r, s, m);
      assert Inv(r, t) && 0 <= Measure(r, t) < Measure(r, s) by { DropAlone(r, s, m); }
      Complete(r, t, after)
  }

  lemma StartInv(r: Request)
    ensures Inv(r, START)
  {
    ExecInv(r, []);
  }

  /** The answer the bucket gives a call where it stands; true where it is not asked. */
  function BucketAnswer(r: Request, s: State, m: Balances): bool {
    if s.pc.AtReserve? then AfterReserve(m, r.downstream, r.budget).1 else true
  }

  lemma CompleteUnfolds(r: Request, s: State, m: Balances)
    requires Inv(r, s) && !s.pc.AtDone?
    ensures
      var (t, after) := StepAlone(r, s, m);
      && Inv(r, t) && 0 <= Measure(r, t) < Measure(r, s)
      && Complete(r, s, m) == Complete(r, t, after)
      && t == Step(r, s, BucketAnswer(r, s, m))
  {
    DropAlone(r, s, m);
    hide Inv, Step, Measure;
  }

  /** The answers the bucket gives a call that is alone with it, from here to its end. */
  function BucketAnswers(r: Request, s: State, m: Balances): seq<bool>
    requires Inv(r, s)
    decreases if s.pc.AtDone? then 0 else Measure(r, s) + 1
  {
    if s.pc.AtDone? then []
    else
      var (t, after) := StepAlone(r, s, m);
      assert Inv(r, t) && 0 <= Measure(r, t) < Measure(r, s) by { DropAlone(r, s, m); }
      [BucketAnswer(r, s, m)] + BucketAnswers(r, t, after)
  }

  /** A call alone is the run of the step machine that is fed the bucket's answers. */
  lemma {:induction false} CompleteIsRun(r: Request, answers: seq<bool>, m: Balances)
    requires Inv(r, Exec(r, answers))
    ensures
      var s := Exec(r, answers);
      Complete(r, s, m).0 == Exec(r, answers + BucketAnswers(r, s, m))
    decreases if Exec(r, answers).pc.AtDone? then 0 else Measure(r, Exec(r, answers)) + 1
  {
    hide Inv, Step, Measure, StepAlone, BucketAnswer;
    var s := Exec(r, answers);
    if s.pc.AtDone? {
      assert answers + [] == answers;
    } else {
      hide Complete;
      CompleteUnfolds(r, s, m);
      var (t, after) := StepAlone(r, s, m);
      var longer := answers + [BucketAnswer(r, s, m)];
      assert longer[..|answers|] == answers;
      CompleteIsRun(r, longer, after);
      assert longer + BucketAnswers(r, t, after) == answers + BucketAnswers(r, s, m);
    }
  }

  /** From here the call ends as `end` says. */
  ghost predicate Towards(r: Request, s: State, m: Balances, end: (State, Balances)) {
    Inv(r, s) && Complete(r, s, m) == end
  }

  /** What a call alone does next, step by step. */
  lemma StepWithoutBudget(r: Request, s: State, m: Balances, end: (State, Balances))
    requires Towards(r, s, m, end) && (s.pc.AtAttempt? || s.pc.AtJudge? || s.pc.AtBackoff?)
    ensures
      var t :=
        if s.pc.AtAttempt? then StepAttempt(r, s) else if s.pc.AtJudge? then StepJudge(r, s) else StepBackoff(r, s);
      Towards(r, t, m, end)
  {
    hide Inv, Measure, Complete, StepAttempt, StepJudge, StepBackoff;
    CompleteUnfolds(r, s, m);
  }

  lemma StepAskBudget(r: Request, s: State, m: Balances, end: (State, Balances))
    requires Towards(r, s, m, end) && s.pc.AtReserve?
    ensures
      var (after, granted) := AfterReserve(m, r.downstream, r.budget);
      Towards(r, StepReserve(r, s, granted), after, end)
  {
    hide Inv, Measure, Complete, StepReserve, AfterReserve;
    CompleteUnfolds(r, s, m);
  }

  lemma StepGiveBack(r: Request, s: State, m: Balances, end: (State, Balances))
    requires Towards(r, s, m, end) && s.pc.AtGiveBack?
    ensures
      var t := Leave(r, s.(reservations := Settle(s.reservations, Refunded)));
      Towards(r, t, AfterRefund(m, r.downstream, r.budget), end)
  {
    hide Inv, Measure, Complete, Leave, AfterRefund;
    CompleteUnfolds(r, s, m);
  }

  lemma StepRecord(r: Request, s: State, m: Balances, end: (State, Balances))
    requires Towards(r, s, m, end) && s.pc.AtCredit?
    ensures Towards(r, Close(r, s), AfterSuccess(m, r.downstream, r.budget), end)
  {
    hide Inv, Measure, Complete, Close, AfterSuccess;
    CompleteUnfolds(r, s, m);
  }

  /** Leaving changes where the call stands, and nothing else. */
  lemma LeaveShape(r: Request, s: State)
    ensures
      var t := Leave(r, s);
      t == s.(pc := if Succeeded(r, s.finalResp, s.finalErr) then AtCredit else AtDone, overall := t.overall)
  {
    hide Succeeded, BodyPresent;
  }

  lemma GiveBackShape(r: Request, s: State)
    requires s.finalErr.Some?
    ensures
      var t := GiveBackOrLeave(r, s);
      t == s.(pc := if HasPending(s.reservations) then AtGiveBack else AtDone, overall := t.overall)
  {
    hide BodyPresent, HasPending;
  }

  lemma BackoffShape(r: Request, s: State)
    ensures
      var t, a := StepBackoff(r, s), r.env(s.attempt);
      var d := s.(bodies := DiscardBodies(s.bodies, s.finalResp),
                  contexts := DiscardContexts(s.bodies, s.contexts, s.finalResp),
                  finalResp := None, lastResp := s.finalResp, lastErr := s.finalErr);
      t == if DelayAfter(r, s.attempt) > 0 && a.waitError.Some? then
             d.(finalErr := a.waitError,
                pc := if HasPending(s.reservations) then AtGiveBack else AtDone, overall := t.overall)
           else d.(pc := AtAttempt, attempt := s.attempt + 1)
  {
    hide DiscardBodies, DiscardContexts, DelayAfter, HasPending, GiveBackOrLeave;
    var waitError := r.env(s.attempt).waitError;
    if waitError.Some? {
      GiveBackShape(r, Discarded(s).(finalErr := waitError));
    }
  }

  lemma CommitLeavesNonePending(reservations: seq<Settlement>)
    ensures !HasPending(Settle(reservations, Committed))
  {
  }

  lemma AtTheEnd(r: Request, s: State, m: Balances, end: (State, Balances))
    requires Towards(r, s, m, end) && s.pc.AtDone?
    ensures end == (s, m)
  {
  }

  /** Where a call that finds the bucket `m` ends when it is alone. */
  function EndAlone(r: Request, m: Balances): (State, Balances) {
    StartInv(r);
    Complete(r, START, m)
  }

  /** The answers such a call gets. */
  function AnswersAlone(r: Request, m: Balances): seq<bool> {
    StartInv(r);
    BucketAnswers(r, START, m)
  }

  /** Where it ends is a finished run, so what holds of every finished run holds of it. */
  lemma EndIsRun(r: Request, m: Balances)
    ensures Finished(r, AnswersAlone(r, m)) && EndAlone(r, m).0 == Exec(r, AnswersAlone(r, m))
  {
    StartInv(r);
    CompleteIsRun(r, [], m);
    assert [] + BucketAnswers(r, START, m) == BucketAnswers(r, START, m);
    hide Inv, Step, BucketAnswers;
  }

  /** An answer without an error and with a status below 400. */
  predicate AnsweredWell(r: Request, finalResp: Option<nat>, finalErr: Option<Error>) {
    match finalErr
    case Some(_) => false
    case None => finalResp.Some? && match r.env(finalResp.value).response
      case None => false
      case Some(response) => response.status <= 399
  }

  lemma SuccessExactly(r: Request, finalResp: Option<nat>, finalErr: Option<Error>)
    ensures Succeeded(r, finalResp, finalErr) <==> AnsweredWell(r, finalResp, finalErr)
  {
  }

  lemma DisabledGrants(r: Request, s: State, m: Balances)
    requires !r.budget.enabled
    ensures BucketAnswer(r, s, m)
  {
  }

  /** A disabled budget grants all it is asked. */
  lemma {:induction false} DisabledGrantsAll(r: Request, s: State, m: Balances)
    requires Inv(r, s) && !r.budget.enabled
    ensures forall i :: 0 <= i < |BucketAnswers(r, s, m)| ==> BucketAnswers(r, s, m)[i]
    decreases if s.pc.AtDone? then 0 else Measure(r, s) + 1
  {
    hide Inv, Step, Measure, StepAlone, Complete;
    if !s.pc.AtDone? {
      var (t, after) := StepAlone(r, s, m);
      CompleteUnfolds(r, s, m);
      DisabledGrantsAll(r, t, after);
      DisabledGrants(r, s, m);
      assert BucketAnswers(r, s, m) == [BucketAnswer(r, s, m)] + BucketAnswers(r, t, after);
    }
    hide BucketAnswer;
  }

  /** What the end of a call alone was decided by. */
  lemma EndIsRight(r: Request, m: Balances)
    ensures
      var s := EndAlone(r, m).0;
      && WentOnRightly(r, s) && ResultRight(r, s)
      && (s.suppressed ==> r.budget.enabled)
      && (s.requestBodyClosed <==> s.sent == [] && !NothingAllowed(r) && r.hasBody)
  {
    hide WentOnRightly, ResultRight, Exec, EndAlone, Inv, NothingAllowed, BucketAnswers;
    EndIsRun(r, m);
    RetriesExactly(r, AnswersAlone(r, m));
    ResultExactly(r, AnswersAlone(r, m));
    SuppressedOnlyWhenDenied(r, AnswersAlone(r, m));
    StartInv(r);
    if !r.budget.enabled {
      DisabledGrantsAll(r, START, m);
    }
  }

  /** What follows an attempt whose outcome permits a retry. */
  datatype Next = Denied | Interrupted(error: Error) | Again

  lemma UsablePositive(cfg: Config)
    requires Usable(cfg)
    ensures cfg.enabled ==> 0 < cfg.retryCost && 0 < cfg.successIncrement
  {
  }

  lemma AtTheStart(r: Request, m: Balances)
    ensures Towards(r, START, m, EndAlone(r, m))
  {
    StartInv(r);
  }

  class Transport {
    const retryBudget: RetryBudget

    constructor (budget: RetryBudget)
      ensures retryBudget == budget
    {
      retryBudget := budget;
    }

    /** A handle on one retry's tokens, not yet settled. */
    ghost predicate Unsettled(r: Request, pending: Reservation?)
      reads pending
    {
      pending != null ==>
        && !pending.done && pending.budget == retryBudget && pending.name == r.downstream
        && pending.cost == r.budget.retryCost && pending.capacity == r.budget.capacity && r.budget.enabled
    }

    lemma NonePending(r: Request)
      ensures Unsettled(r, null) && !HasPending(START.reservations)
    {
    }

    method RoundTrip(r: Request)
      returns (resp: Option<nat>, err: Option<Error>, retryCount: nat, suppressed: bool, ghost s: State)
      requires retryBudget.Valid() && Usable(r.budget)
      modifies retryBudget, retryBudget.entries.Values
      ensures retryBudget.Valid()
      ensures (s, retryBudget.Contents()) == EndAlone(r, old(retryBudget.Contents()))
      ensures
        var answers := AnswersAlone(r, old(retryBudget.Contents()));
        Finished(r, answers) && s == Exec(r, answers)
      ensures WentOnRightly(r, s) && ResultRight(r, s) && (suppressed ==> r.budget.enabled)
      ensures (resp, err) == Outcome(s) && retryCount == RetryCount(s) && suppressed == s.suppressed
    {
      hide SeenByName, AnsweredWell, Towards, EndAlone, Succeeded, BodyPresent, AfterSuccess, Usable;
      assert r.budget.enabled ==> 0 < r.budget.retryCost && 0 < r.budget.successIncrement by {
        UsablePositive(r.budget);
      }
      hide Exec, AnswersAlone, WentOnRightly, ResultRight;
      EndIsRun(r, retryBudget.Contents());
      EndIsRight(r, retryBudget.Contents());
      ghost var end := EndAlone(r, retryBudget.Contents());
      var finalResp, finalErr, lastResp, lastErr, totalAttempts;
      finalResp, finalErr, lastResp, lastErr, totalAttempts, suppressed, s := AttemptLoop(r);
      SuccessExactly(r, finalResp, finalErr);
      if AnsweredWell(r, finalResp, finalErr) {
        StepRecord(r, s, retryBudget.Contents(), end);
        s := Close(r, s);
        retryBudget.RecordSuccess(r.downstream, r.budget);
      }
      AtTheEnd(r, s, retryBudget.Contents(), end);
      retryCount := if totalAttempts == 0 then 0 else totalAttempts - 1;
      if finalResp.Some? || finalErr.Some? {
        resp, err := finalResp, finalErr;
      } else {
        resp, err := lastResp, lastErr;
      }
    }

    /** The attempt loop of RoundTrip. */
    method AttemptLoop(r: Request)
      returns (finalResp: Option<nat>, finalErr: Option<Error>, lastResp: Option<nat>, lastErr: Option<Error>,
               totalAttempts: nat, suppressed: bool, ghost s: State)
      requires retryBudget.Valid() && (r.budget.enabled ==> 0 < r.budget.retryCost)
      modifies retryBudget, retryBudget.entries.Values
      ensures retryBudget.Valid()
      ensures fresh(retryBudget.entries.Values - old(retryBudget.entries.Values))
      ensures Towards(r, s, retryBudget.Contents(), EndAlone(r, old(retryBudget.Contents())))
      ensures s.pc == if Succeeded(r, finalResp, finalErr) then AtCredit else AtDone
      ensures s.finalResp == finalResp && s.finalErr == finalErr && s.lastResp == lastResp && s.lastErr == lastErr
      ensures |s.sent| == totalAttempts && s.suppressed == suppressed
    {
      hide Towards, EndAlone, PrepareAttempt, ShouldRetry, WaitOverruns, DelayAfter, MaxRetries, Succeeded,
        BodyPresent, DiscardBodies, DiscardContexts, AfterReserve, AfterRefund, Leave, GiveBackOrLeave, Settle,
        StepBackoff, HasPending, RetryBudget.Valid, RetryBudget.Contents, Transport.Unsettled;
      ghost var m := retryBudget.Contents();
      ghost var end := EndAlone(r, m);
      var maxRetries := MaxRetries(r);
      var attempt := 0;
      var sent: seq<Sent>, bodies: seq<Body>, contexts: seq<Ctx> := [], [], [];
      lastResp, lastErr, finalResp, finalErr := None, None, None, None;
      var pending: Reservation? := null;
      var requestBodyClosed := false;
      totalAttempts, suppressed := 0, false;
      s := START;
      AtTheStart(r, m);
      NonePending(r);
      while attempt <= maxRetries
        invariant s == State(AtAttempt, attempt, sent, s.reservations, bodies, contexts, Live, finalResp, finalErr,
                             lastResp, lastErr, suppressed, requestBodyClosed)
        invariant attempt == |sent| == totalAttempts
        invariant m == retryBudget.Contents() && Towards(r, s, m, end)
        invariant retryBudget.Valid()
        invariant fresh(retryBudget.entries.Values - old(retryBudget.entries.Values))
        invariant HasPending(s.reservations) <==> pending != null
        invariant Unsettled(r, pending) && (pending != null ==> fresh(pending))
        decreases maxRetries - attempt
      {
        var prepared := PrepareAttempt(r, attempt);
        StepWithoutBudget(r, s, m, end);
        if prepared.Err? {
          finalResp, finalErr := None, Some(prepared.error);
          requestBodyClosed := attempt == 0 && r.hasBody;
          GiveBackShape(r, s.(finalResp := None, finalErr := finalErr, requestBodyClosed := requestBodyClosed));
          s := StepAttempt(r, s);
          s := GiveUp(r, pending, s, end);
          return;
        }
        CommitLeavesNonePending(s.reservations);
        s := StepAttempt(r, s);
        sent := sent + [prepared.value];
        totalAttempts := attempt + 1;
        Commit(pending);
        pending := null;
        var a := r.env(attempt);
        bodies := bodies + [Body(BodyPresent(r, attempt), 0, 0)];
        contexts := contexts + [if a.error.None? && BodyPresent(r, attempt) then OwnedByBody else Cancelled];
        finalResp := if a.response.Some? then Some(attempt) else None;
        finalErr := a.error;

        StepWithoutBudget(r, s, m, end);
        LeaveShape(r, s);
        s := StepJudge(r, s);
        if !ShouldRetry(r, attempt, prepared.value) {
          return;
        }
        if WaitOverruns(r, attempt) {
          return;
        }

        var next;
        next, pending, m, s := ArrangeRetry(r, attempt, s, end);
        if next.Denied? {
          suppressed := true;
          return;
        }
        contexts := DiscardContexts(bodies, contexts, finalResp);
        bodies := DiscardBodies(bodies, finalResp);
        lastResp, lastErr := finalResp, finalErr;
        finalResp := None;
        if next.Interrupted? {
          finalErr := Some(next.error);
          return;
        }
        attempt := attempt + 1;
      }
      StepWithoutBudget(r, s, m, end);
      LeaveShape(r, s);
      s := StepAttempt(r, s);
    }

    method Commit(pending: Reservation?)
      requires retryBudget.Valid()
      modifies pending
      ensures pending != null ==> pending.done
      ensures retryBudget.Valid() && retryBudget.entries == old(retryBudget.entries)
      ensures retryBudget.Contents() == old(retryBudget.Contents())
    {
      if pending != null {
        pending.Commit();
      }
    }

    /** Reserves the tokens of one retry and waits out the backoff; when the wait is cut
        short, the reservation is given back. */
    method ArrangeRetry(r: Request, attempt: nat, ghost s: State, ghost end: (State, Balances))
      returns (next: Next, pending: Reservation?, ghost m: Balances, ghost t: State)
      requires retryBudget.Valid() && (r.budget.enabled ==> 0 < r.budget.retryCost)
      requires Towards(r, s, retryBudget.Contents(), end) && s.pc.AtReserve? && s.attempt == attempt
        && !HasPending(s.reservations)
      modifies retryBudget, retryBudget.entries.Values
      ensures retryBudget.Valid() && m == retryBudget.Contents() && Towards(r, t, m, end)
      ensures fresh(retryBudget.entries.Values - old(retryBudget.entries.Values))
      ensures next.Denied? ==>
        t == s.(pc := if Succeeded(r, s.finalResp, s.finalErr) then AtCredit else AtDone,
                suppressed := true, overall := t.overall)
      ensures next.Interrupted? ==>
        && !Succeeded(r, None, Some(next.error))
        && t == Discarded(s).(pc := AtDone, finalErr := Some(next.error),
                              reservations := t.reservations, overall := t.overall)
      ensures next.Again? ==>
        && t == Discarded(s).(pc := AtAttempt, attempt := attempt + 1, reservations := t.reservations)
        && (HasPending(t.reservations) <==> pending != null)
        && Unsettled(r, pending) && (pending != null ==> fresh(pending))
    {
      hide ReservedByName, SeenByName, Towards, AfterReserve, Leave, Succeeded, DelayAfter, StepBackoff, DiscardBodies,
        DiscardContexts,
        RetryBudget.Valid, RetryBudget.Contents;
      StepAskBudget(r, s, retryBudget.Contents(), end);
      var granted;
      pending, granted := retryBudget.Reserve(r.downstream, r.budget);
      m := retryBudget.Contents();
      LeaveShape(r, s.(suppressed := true));
      t := StepReserve(r, s, granted);
      if !granted {
        return Denied, pending, m, t;
      }
      StepWithoutBudget(r, t, m, end);
      BackoffShape(r, t);
      t := StepBackoff(r, t);
      var waitError := r.env(attempt).waitError;
      if DelayAfter(r, attempt) > 0 && waitError.Some? {
        t := GiveUp(r, pending, t, end);
        m := retryBudget.Contents();
        return Interrupted(waitError.value), pending, m, t;
      }
      next := Again;
    }

    /** Leaves the loop with an error, after giving a pending reservation back. */
    method GiveUp(r: Request, pending: Reservation?, ghost s: State, ghost end: (State, Balances))
      returns (ghost t: State)
      requires retryBudget.Valid() && (r.budget.enabled ==> 0 < r.budget.retryCost) && Unsettled(r, pending)
      requires Towards(r, s, retryBudget.Contents(), end) && s.finalErr.Some?
      requires s.pc == if pending != null then AtGiveBack else AtDone
      modifies retryBudget, retryBudget.entries.Values, pending
      ensures retryBudget.Valid()
      ensures fresh(retryBudget.entries.Values - old(retryBudget.entries.Values))
      ensures Towards(r, t, retryBudget.Contents(), end)
      ensures !Succeeded(r, t.finalResp, t.finalErr)
      ensures t == s.(pc := AtDone, reservations := t.reservations, overall := t.overall)
    {
      hide Towards, SeenByName;
      t := s;
      if pending != null {
        StepGiveBack(r, s, retryBudget.Contents(), end);
        t := Leave(r, s.(reservations := Settle(s.reservations, Refunded)));
        pending.Refund();
      }
    }
  }
}
