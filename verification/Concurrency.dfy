/** Any number of calls of one transport at once, interleaved with each other at every step
    and inside every budget operation at every atomic instruction. */
module Concurrency {
  import opened Wrappers
  import opened Budget
  import opened RoundTrip
  import Text
  import Cas = BudgetCas

  /** A call, the budget answers it has received, and its budget operation in progress. */
  datatype Call = Call(request: Request, answers: seq<bool>, inFlight: Option<nat>)

  datatype System = System(budget: Cas.State, calls: seq<Call>)

  const IDLE := System(Cas.INIT, [])

  datatype Event = Start(request: Request) | Turn(call: nat)

  function Local(c: Call): State {
    Exec(c.request, c.answers)
  }

  predicate AsksBudget(c: Call) {
    c.request.budget.enabled && (Local(c).pc.AtReserve? || Local(c).pc.AtGiveBack? || Local(c).pc.AtCredit?)
  }

  /** The budget operation a call performs where it stands. */
  function OpAt(request: Request, pc: Pc): Cas.Op {
    var key, cfg := BudgetKey(request.downstream), request.budget;
    match pc
    case AtReserve => Cas.ReserveOp(key, cfg.capacity, cfg.retryCost)
    case AtGiveBack => Cas.RefundOp(key, cfg.capacity, cfg.retryCost)
    case _ => Cas.SuccessOp(key, cfg.capacity, cfg.successIncrement)
  }

  function OpOf(c: Call): Cas.Op {
    OpAt(c.request, Local(c).pc)
  }

  function Answer(s: System, i: nat, granted: bool): System
    requires i < |s.calls|
  {
    var c := s.calls[i];
    s.(calls := s.calls[i := c.(answers := c.answers + [granted], inFlight := None)])
  }

  /** Call `i` has started its operation. */
  function Invoked(s: System, i: nat): System
    requires i < |s.calls|
  {
    System(Cas.InvokeOp(s.budget, OpOf(s.calls[i])), s.calls[i := s.calls[i].(inFlight := Some(|s.budget.calls|))])
  }

  /** One step of call `i`: a step of its own, the start of a budget operation, one atomic
      instruction of it, or its return. */
  function Advance(s: System, i: nat): System
    requires i < |s.calls|
  {
    var c := s.calls[i];
    if Local(c).pc.AtDone? then s
    else if !AsksBudget(c) then Answer(s, i, true)
    else if c.inFlight.None? then Invoked(s, i)
    else
      var id := c.inFlight.value;
      if id >= |s.budget.calls| then s
      else match s.budget.calls[id].pc
        case Returned(granted) => Answer(s, i, granted)
        case _ => s.(budget := Cas.Step(s.budget, id))
  }

  function Apply(s: System, e: Event): System {
    match e
    case Start(request) => s.(calls := s.calls + [Call(request, [], None)])
    case Turn(i) => if i < |s.calls| then Advance(s, i) else s
  }

  function Run(events: seq<Event>): System {
    if events == [] then IDLE
    else Apply(Run(events[..|events| - 1]), events[|events| - 1])
  }

  predicate ValidEvents(events: seq<Event>) {
    forall i :: 0 <= i < |events| && events[i].Start? ==> Usable(events[i].request.budget)
  }

  // ----- invariant -----

  /** Budget operations in progress are those of the calls that wait for them. */
  predicate FlightOk(s: System) {
    && (forall i :: 0 <= i < |s.calls| ==> Usable(s.calls[i].request.budget))
    && (forall i :: 0 <= i < |s.calls| && s.calls[i].inFlight.Some? ==>
          && s.calls[i].inFlight.value < |s.budget.calls|
          && AsksBudget(s.calls[i])
          && s.budget.calls[s.calls[i].inFlight.value].op == OpOf(s.calls[i]))
    && (forall i, j :: 0 <= i < j < |s.calls| && s.calls[i].inFlight.Some? && s.calls[j].inFlight.Some? ==>
          s.calls[i].inFlight != s.calls[j].inFlight)
  }

  predicate SystemInv(s: System) {
    Cas.Inv(s.budget) && FlightOk(s)
  }

  lemma OpIsValid(c: Call)
    requires Usable(c.request.budget) && c.request.budget.enabled
    ensures Cas.ValidOp(OpOf(c))
  {
    hide Exec;
  }

  lemma AdvanceKeepsInv(s: System, i: nat)
    requires SystemInv(s) && i < |s.calls|
    ensures SystemInv(Advance(s, i))
  {
    hide Cas.Inv, Cas.Step, Exec, Usable, OpAt;
    var c := s.calls[i];
    if AsksBudget(c) && c.inFlight.None? {
      OpIsValid(c);
      Cas.ApplyKeepsInv(s.budget, Cas.Invoke(OpOf(c)));
    } else if AsksBudget(c) && c.inFlight.Some? && !s.budget.calls[c.inFlight.value].pc.Returned? {
      Cas.StepKeepsInv(s.budget, c.inFlight.value);
      Cas.StepIsStepped(s.budget, c.inFlight.value);
    }
  }

  lemma ApplyKeepsInv(s: System, e: Event)
    requires SystemInv(s) && (e.Start? ==> Usable(e.request.budget))
    ensures SystemInv(Apply(s, e))
  {
    hide Cas.Inv, Advance, Exec, Usable, OpAt;
    if e.Turn? && e.call < |s.calls| {
      AdvanceKeepsInv(s, e.call);
    }
  }

  lemma {:induction false} RunInv(events: seq<Event>)
    requires ValidEvents(events)
    ensures SystemInv(Run(events))
  {
    if events == [] {
      Cas.ReachableInv([]);
    } else {
      RunInv(events[..|events| - 1]);
      hide SystemInv, Advance;
      ApplyKeepsInv(Run(events[..|events| - 1]), events[|events| - 1]);
    }
  }

  // ----- conservation -----

  function Sum(xs: seq<int>): int {
    if xs == [] then 0 else Sum(xs[..|xs| - 1]) + xs[|xs| - 1]
  }

  lemma {:induction false} SumUpdate(xs: seq<int>, i: nat, x: int)
    requires i < |xs|
    ensures Sum(xs[i := x]) == Sum(xs) - xs[i] + x
  {
    var ys, last := xs[i := x], |xs| - 1;
    if i == last {
      assert ys[..last] == xs[..last];
    } else {
      SumUpdate(xs[..last], i, x);
      assert ys[..last] == xs[..last][i := x];
    }
  }

  /** Two rows that differ in one place. */
  lemma SumChange(xs: seq<int>, ys: seq<int>, i: nat)
    requires |xs| == |ys| && i < |xs|
    requires forall j :: 0 <= j < |xs| && j != i ==> xs[j] == ys[j]
    ensures Sum(ys) == Sum(xs) - xs[i] + ys[i]
  {
    assert ys == xs[i := ys[i]];
    SumUpdate(xs, i, ys[i]);
  }

  lemma SumAppend(xs: seq<int>, x: int)
    ensures Sum(xs + [x]) == Sum(xs) + x
  {
    assert (xs + [x])[..|xs|] == xs;
  }

  /** Whether a budget operation has returned with tokens. */
  predicate Granted(s: System, id: nat) {
    id < |s.budget.calls| && s.budget.calls[id].pc.Returned? && s.budget.calls[id].pc.granted
  }

  /** Whether the operation in progress, if any, has taken effect. */
  predicate Landed(s: System, i: nat)
    requires i < |s.calls|
  {
    var f := s.calls[i].inFlight;
    f.Some? && f.value < |s.budget.calls| && s.budget.calls[f.value].pc.Returned?
  }

  /** What an operation that has taken effect, but not returned, means for its call. */
  function InTransit(s: System, i: nat): int
    requires i < |s.calls|
  {
    var pc := Local(s.calls[i]).pc;
    if !Landed(s, i) then 0
    else if pc.AtReserve? && Granted(s, s.calls[i].inFlight.value) then 1
    else if pc.AtGiveBack? then -1
    else 0
  }

  /** The reservations call `i` holds that no attempt has used yet. */
  function Outstanding(s: System, i: nat): int
    requires i < |s.calls|
  {
    (if HasPending(Local(s.calls[i]).reservations) then 1 else 0) + InTransit(s, i)
  }

  /** Whether call `i` has been credited for its success. */
  predicate Credited(s: System, i: nat)
    requires i < |s.calls|
  {
    (Local(s.calls[i]).pc.AtCredit? && Landed(s, i)) || DoneWell(s.calls[i].request, Local(s.calls[i]))
  }

  predicate Uses(c: Call, key: string) {
    c.request.budget.enabled && BudgetKey(c.request.downstream) == key
  }

  /** The reservations call `i` has used for retries or still holds. */
  function Units(s: System, i: nat): int
    requires i < |s.calls|
  {
    RetryCount(Local(s.calls[i])) + Outstanding(s, i)
  }

  function Price(cost: int, units: int): int {
    cost * units
  }

  lemma PriceOfOne(cost: int, units: int)
    ensures Price(cost, units + 1) == Price(cost, units) + cost
    ensures Price(cost, units - 1) == Price(cost, units) - cost
  {
  }

  /** The same, in tokens of `key`. */
  function Held(s: System, i: nat, key: string): int
    requires i < |s.calls|
  {
    var c := s.calls[i];
    if Uses(c, key) then Price(c.request.budget.retryCost, Units(s, i)) else 0
  }

  /** The tokens call `i` has earned for `key`. */
  function Income(s: System, i: nat, key: string): int
    requires i < |s.calls|
  {
    var c := s.calls[i];
    if Uses(c, key) && Credited(s, i) then c.request.budget.successIncrement else 0
  }

  function HeldRow(s: System, key: string): seq<int> {
    seq(|s.calls|, i requires 0 <= i < |s.calls| => Held(s, i, key))
  }

  function IncomeRow(s: System, key: string): seq<int> {
    seq(|s.calls|, i requires 0 <= i < |s.calls| => Income(s, i, key))
  }

  /** The budget's books agree with the calls: what was debited and not given back is what
      calls used or hold, and what was credited is what successful calls earned. */
  predicate Balanced(s: System, key: string) {
    && Cas.Total(s.budget.log, key, Cas.Spending) - Cas.Total(s.budget.log, key, Cas.Refunds) == Sum(HeldRow(s, key))
    && Cas.Total(s.budget.log, key, Cas.Earnings) == Sum(IncomeRow(s, key))
  }

  /** What call `i` contributes to both sides, before and after a step of call `i`. */
  predicate Contributes(s: System, t: System, i: nat, key: string)
    requires i < |s.calls| && i < |t.calls|
  {
    && Held(t, i, key) - Held(s, i, key) ==
         Cas.Total(t.budget.log, key, Cas.Spending) - Cas.Total(s.budget.log, key, Cas.Spending)
         - Cas.Total(t.budget.log, key, Cas.Refunds) + Cas.Total(s.budget.log, key, Cas.Refunds)
    && Income(t, i, key) - Income(s, i, key) ==
         Cas.Total(t.budget.log, key, Cas.Earnings) - Cas.Total(s.budget.log, key, Cas.Earnings)
  }

  lemma ExecMore(r: Request, answers: seq<bool>, granted: bool)
    ensures Exec(r, answers + [granted]) == Step(r, Exec(r, answers), granted)
  {
    assert (answers + [granted])[..|answers|] == answers;
  }

  /** What an own step, or the answer of the budget, does to the reservations of a call. */
  lemma LocalStep(r: Request, answers: seq<bool>, granted: bool)
    requires r.budget.enabled && !Exec(r, answers).pc.AtDone?
    ensures
      var l, next := Exec(r, answers), Exec(r, answers + [granted]);
      && Tokens(next) == Tokens(l) + (if l.pc.AtReserve? && granted then 1 else if l.pc.AtGiveBack? then -1 else 0)
      && (DoneWell(r, next) <==> l.pc.AtCredit?) && !DoneWell(r, l)
  {
    hide Exec, RoundTrip.Inv, Step, Tokens, Succeeded;
    ExecMore(r, answers, granted);
    ExecInv(r, answers);
    StepTokens(r, Exec(r, answers), granted);
    StepEndsWell(r, Exec(r, answers), granted);
  }

  lemma UnitsAreTokens(s: System, i: nat)
    requires i < |s.calls|
    ensures Units(s, i) == Tokens(Local(s.calls[i])) + InTransit(s, i)
  {
    hide Exec, RetryCount, HasPending, InTransit;
  }

  lemma FlightAsks(s: System, i: nat)
    requires SystemInv(s) && i < |s.calls| && s.calls[i].inFlight.Some?
    ensures AsksBudget(s.calls[i])
    ensures s.calls[i].inFlight.value < |s.budget.calls|
    ensures s.budget.calls[s.calls[i].inFlight.value].op == OpOf(s.calls[i])
  {
    hide Cas.Inv, Usable, AsksBudget, OpOf;
  }

  lemma AnswerUnits(s: System, i: nat, granted: bool)
    requires SystemInv(s) && i < |s.calls| && !Local(s.calls[i]).pc.AtDone? && s.calls[i].request.budget.enabled
    requires AsksBudget(s.calls[i]) ==> Landed(s, i) && s.budget.calls[s.calls[i].inFlight.value].pc.granted == granted
    ensures
      var t := Answer(s, i, granted);
      Units(t, i) == Units(s, i) && Credited(t, i) == Credited(s, i)
  {
    var c, t := s.calls[i], Answer(s, i, granted);
    UnitsAreTokens(s, i);
    UnitsAreTokens(t, i);
    LocalStep(c.request, c.answers, granted);
    if c.inFlight.Some? {
      FlightAsks(s, i);
    }
    hide SystemInv, Exec, Units, Tokens, DoneWell;
  }

  /** A call takes a step of its own, or its operation returns. */
  lemma AnswerContributes(s: System, i: nat, granted: bool, key: string)
    requires SystemInv(s) && i < |s.calls| && !Local(s.calls[i]).pc.AtDone?
    requires AsksBudget(s.calls[i]) ==> Landed(s, i) && s.budget.calls[s.calls[i].inFlight.value].pc.granted == granted
    ensures Contributes(s, Answer(s, i, granted), i, key)
  {
    hide SystemInv, Exec, Units, Credited, AsksBudget, Landed;
    if s.calls[i].request.budget.enabled {
      AnswerUnits(s, i, granted);
    }
  }

  lemma NotDoneWell(r: Request, l: State)
    requires !l.pc.AtDone?
    ensures !DoneWell(r, l)
  {
  }

  lemma InvokeUnits(s: System, i: nat)
    requires i < |s.calls| && s.calls[i].inFlight.None?
    ensures Units(Invoked(s, i), i) == Units(s, i) && Credited(Invoked(s, i), i) == Credited(s, i)
  {
    hide Exec, RetryCount, HasPending, DoneWell, OpAt;
  }

  lemma InvokeContributes(s: System, i: nat, key: string)
    requires i < |s.calls| && s.calls[i].inFlight.None?
    ensures Contributes(s, Invoked(s, i), i, key)
  {
    hide Exec, Units, Credited, OpOf;
    InvokeUnits(s, i);
  }

  lemma DoneAsksNothing(c: Call)
    requires AsksBudget(c)
    ensures !Local(c).pc.AtDone?
  {
    hide Exec;
  }

  /** One atomic instruction of the operation in progress. */
  lemma InstructionUnits(s: System, i: nat, key: string)
    requires SystemInv(s) && i < |s.calls| && AsksBudget(s.calls[i]) && s.calls[i].inFlight.Some?
    requires !s.budget.calls[s.calls[i].inFlight.value].pc.Returned?
    ensures
      var id := s.calls[i].inFlight.value;
      var t := s.(budget := Cas.Step(s.budget, id));
      var landed := Cas.Lands(s.budget, t.budget, id);
      && Units(t, i) - Units(s, i) ==
           (if landed && Local(s.calls[i]).pc.AtReserve? && Granted(t, id) then 1
            else if landed && Local(s.calls[i]).pc.AtGiveBack? then -1 else 0)
      && (Credited(t, i) <==> Credited(s, i) || (landed && Local(s.calls[i]).pc.AtCredit?))
      && (Credited(s, i) ==> !(landed && Local(s.calls[i]).pc.AtCredit?))
  {
    Cas.StepIsStepped(s.budget, s.calls[i].inFlight.value);
    DoneAsksNothing(s.calls[i]);
    NotDoneWell(s.calls[i].request, Local(s.calls[i]));
    hide Cas.Inv, Cas.Step, Exec, RetryCount, HasPending, DoneWell, Usable, OpAt, AsksBudget;
  }

  /** What the operation of a call at `pc` enters in a book when it takes effect. */
  function Amount(cfg: Config, pc: Pc, granted: bool, book: Cas.Book): int {
    match book
    case Spending => if pc.AtReserve? && granted then cfg.retryCost else 0
    case Refunds => if pc.AtGiveBack? then cfg.retryCost else 0
    case Earnings => if pc.AtCredit? then cfg.successIncrement else 0
  }

  predicate BookMoved(s: System, t: System, i: nat, key: string, landed: bool, granted: bool, book: Cas.Book)
    requires i < |s.calls|
  {
    var c := s.calls[i];
    Cas.Total(t.budget.log, key, book) == Cas.Total(s.budget.log, key, book) +
      if landed && Uses(c, key) then Amount(c.request.budget, Local(c).pc, granted, book) else 0
  }

  lemma KeyOfCall(c: Call)
    requires AsksBudget(c)
    ensures OpOf(c).key == BudgetKey(c.request.downstream) && c.request.budget.enabled
  {
    hide Exec, BudgetKey;
  }

  lemma AmountsMatch(c: Call, op: Cas.Op, granted: bool, book: Cas.Book)
    requires op == OpOf(c) && AsksBudget(c) && (granted ==> op.ReserveOp?)
    ensures op.key == BudgetKey(c.request.downstream) && c.request.budget.enabled
    ensures (if Cas.Entered(op, granted, book) then op.amount else 0) ==
      Amount(c.request.budget, Local(c).pc, granted, book)
  {
    hide Exec, BudgetKey;
  }

  lemma BookMoves(s: System, t: System, i: nat, key: string, op: Cas.Op, landed: bool, granted: bool, book: Cas.Book)
    requires i < |s.calls|
    requires Cas.Total(t.budget.log, key, book) == Cas.Total(s.budget.log, key, book) +
      if op.key == key && landed && Cas.Entered(op, granted, book) then op.amount else 0
    requires op.key == BudgetKey(s.calls[i].request.downstream) && s.calls[i].request.budget.enabled
    requires landed ==>
      (if Cas.Entered(op, granted, book) then op.amount else 0) ==
        Amount(s.calls[i].request.budget, Local(s.calls[i]).pc, granted, book)
    ensures BookMoved(s, t, i, key, landed, granted, book)
  {
    hide Cas.Total, Cas.Entered, Amount, BudgetKey, Exec;
  }

  /** The books move by the amounts of the call whose operation takes effect. */
  lemma InstructionBook(s: System, i: nat, key: string, book: Cas.Book)
    requires SystemInv(s) && i < |s.calls| && AsksBudget(s.calls[i]) && s.calls[i].inFlight.Some?
    ensures
      var id := s.calls[i].inFlight.value;
      var t := s.(budget := Cas.Step(s.budget, id));
      BookMoved(s, t, i, key, Cas.Lands(s.budget, t.budget, id), Granted(t, id), book)
  {
    var id := s.calls[i].inFlight.value;
    FlightAsks(s, i);
    assert Cas.Inv(s.budget);
    hide SystemInv, Cas.Inv, Cas.Step, Exec, Cas.Total, AsksBudget, OpOf, BudgetKey, Amount, Cas.Entered, Usable,
      BookMoved;
    var op, t := s.budget.calls[id].op, s.(budget := Cas.Step(s.budget, id));
    Cas.StepBooks(s.budget, id, key, book);
    KeyOfCall(s.calls[i]);
    if Cas.Lands(s.budget, t.budget, id) {
      Cas.OnlyReservesAreGranted(s.budget, id);
      AmountsMatch(s.calls[i], op, Granted(t, id), book);
    }
    BookMoves(s, t, i, key, op, Cas.Lands(s.budget, t.budget, id), Granted(t, id), book);
  }

  lemma InstructionAddsUp(s: System, t: System, i: nat, key: string, landed: bool, granted: bool)
    requires i < |s.calls| && t.calls == s.calls
    requires BookMoved(s, t, i, key, landed, granted, Cas.Spending)
    requires BookMoved(s, t, i, key, landed, granted, Cas.Refunds)
    requires BookMoved(s, t, i, key, landed, granted, Cas.Earnings)
    requires
      var pc := Local(s.calls[i]).pc;
      && Units(t, i) - Units(s, i) ==
           (if landed && pc.AtReserve? && granted then 1 else if landed && pc.AtGiveBack? then -1 else 0)
      && (Credited(t, i) <==> Credited(s, i) || (landed && pc.AtCredit?))
      && (Credited(s, i) ==> !(landed && pc.AtCredit?))
    ensures Contributes(s, t, i, key)
  {
    hide Exec, Units, Credited, Cas.Total, Price, BudgetKey;
    PriceOfOne(s.calls[i].request.budget.retryCost, Units(s, i));
  }

  lemma InstructionContributes(s: System, i: nat, key: string)
    requires SystemInv(s) && i < |s.calls| && AsksBudget(s.calls[i]) && s.calls[i].inFlight.Some?
    requires !s.budget.calls[s.calls[i].inFlight.value].pc.Returned?
    ensures Contributes(s, s.(budget := Cas.Step(s.budget, s.calls[i].inFlight.value)), i, key)
  {
    var c := s.calls[i];
    var t := s.(budget := Cas.Step(s.budget, c.inFlight.value));
    hide *;
    InstructionBook(s, i, key, Cas.Spending);
    InstructionBook(s, i, key, Cas.Refunds);
    InstructionBook(s, i, key, Cas.Earnings);
    InstructionUnits(s, i, key);
    PriceOfOne(c.request.budget.retryCost, Units(s, i));
    InstructionAddsUp(s, t, i, key, Cas.Lands(s.budget, t.budget, c.inFlight.value), Granted(t, c.inFlight.value));
  }

  lemma AnswerKeepsOthers(s: System, i: nat, granted: bool)
    requires i < |s.calls|
    ensures
      var t := Answer(s, i, granted);
      |t.calls| == |s.calls| && t.budget == s.budget && forall j :: 0 <= j < |s.calls| && j != i ==>
        t.calls[j] == s.calls[j]
  {
  }

  lemma AdvanceContributes(s: System, i: nat, key: string)
    requires SystemInv(s) && i < |s.calls|
    ensures |Advance(s, i).calls| == |s.calls| && Contributes(s, Advance(s, i), i, key)
  {
    hide SystemInv, Cas.Step, Exec, Held, Income, AsksBudget, Answer, Cas.InvokeOp;
    var c := s.calls[i];
    AnswerKeepsOthers(s, i, true);
    if !Local(c).pc.AtDone? {
      if !AsksBudget(c) {
        AnswerContributes(s, i, true, key);
      } else if c.inFlight.None? {
        InvokeContributes(s, i, key);
      } else {
        FlightAsks(s, i);
        var pc := s.budget.calls[c.inFlight.value].pc;
        if pc.Returned? {
          AnswerKeepsOthers(s, i, pc.granted);
          AnswerContributes(s, i, pc.granted, key);
        } else {
          InstructionContributes(s, i, key);
        }
      }
    }
  }

  /** Call `j` and its operation are the same in both states. */
  ghost predicate Untouched(s: System, t: System, j: nat)
    requires j < |s.calls|
  {
    && j < |t.calls| && t.calls[j] == s.calls[j]
    && (s.calls[j].inFlight.Some? ==>
          var id := s.calls[j].inFlight.value;
          id < |s.budget.calls| && id < |t.budget.calls| && t.budget.calls[id] == s.budget.calls[id])
  }

  lemma UntouchedContributesAlike(s: System, t: System, j: nat, key: string)
    requires j < |s.calls| && Untouched(s, t, j)
    ensures Held(t, j, key) == Held(s, j, key) && Income(t, j, key) == Income(s, j, key)
  {
    hide Exec, RetryCount, HasPending, DoneWell, BudgetKey, Price;
    assert Landed(t, j) == Landed(s, j);
    assert Units(t, j) == Units(s, j);
    assert Credited(t, j) == Credited(s, j);
    hide Units, Credited, Landed;
  }

  lemma FlightsDiffer(s: System, i: nat, j: nat)
    requires SystemInv(s) && i < |s.calls| && j < |s.calls| && i != j
    ensures s.calls[i].inFlight.Some? && s.calls[j].inFlight.Some? ==> s.calls[i].inFlight != s.calls[j].inFlight
  {
    hide Cas.Inv, Usable, AsksBudget, OpOf;
  }

  /** A step of one call leaves the others alone. */
  lemma OthersKeep(s: System, i: nat, j: nat)
    requires SystemInv(s) && i < |s.calls| && j < |s.calls| && i != j
    ensures |Advance(s, i).calls| == |s.calls| && Untouched(s, Advance(s, i), j)
  {
    var c := s.calls[i];
    var t := Advance(s, i);
    if s.calls[j].inFlight.Some? {
      FlightAsks(s, j);
    }
    hide Cas.Step, Exec, AsksBudget;
    if c.inFlight.Some? {
      FlightAsks(s, i);
      FlightsDiffer(s, i, j);
      Cas.StepIsStepped(s.budget, c.inFlight.value);
      hide SystemInv;
    }
  }

  lemma AdvanceKeepsBalance(s: System, i: nat, key: string)
    requires SystemInv(s) && Balanced(s, key) && i < |s.calls|
    ensures Balanced(Advance(s, i), key)
  {
    var t := Advance(s, i);
    AdvanceContributes(s, i, key);
    forall j | 0 <= j < |s.calls| && j != i
      ensures Held(t, j, key) == Held(s, j, key) && Income(t, j, key) == Income(s, j, key)
    {
      OthersKeep(s, i, j);
      UntouchedContributesAlike(s, t, j, key);
    }
    hide SystemInv, Advance, Held, Income, Cas.Total, Sum;
    SumChange(HeldRow(s, key), HeldRow(t, key), i);
    SumChange(IncomeRow(s, key), IncomeRow(t, key), i);
  }

  lemma NothingYet(request: Request)
    ensures
      var l := Exec(request, []);
      RetryCount(l) == 0 && !HasPending(l.reservations) && !DoneWell(request, l) && !l.pc.AtCredit?
  {
    hide Step, Succeeded;
  }

  lemma StartIsEmpty(s: System, request: Request, key: string)
    ensures
      var t := Apply(s, Start(request));
      |t.calls| == |s.calls| + 1 && Held(t, |s.calls|, key) == 0 && Income(t, |s.calls|, key) == 0
  {
    NothingYet(request);
    hide Exec, BudgetKey, RetryCount, HasPending, DoneWell;
  }

  lemma StartKeepsOthers(s: System, request: Request, j: nat)
    requires SystemInv(s) && j < |s.calls|
    ensures Untouched(s, Apply(s, Start(request)), j)
  {
    hide Cas.Inv, Exec, Usable, OpOf, AsksBudget;
  }

  lemma StartKeepsBalance(s: System, request: Request, key: string)
    requires SystemInv(s) && Balanced(s, key)
    ensures Balanced(Apply(s, Start(request)), key)
  {
    var t := Apply(s, Start(request));
    StartIsEmpty(s, request, key);
    forall j | 0 <= j < |s.calls|
      ensures Held(t, j, key) == Held(s, j, key) && Income(t, j, key) == Income(s, j, key)
    {
      StartKeepsOthers(s, request, j);
      UntouchedContributesAlike(s, t, j, key);
    }
    hide SystemInv, Held, Income, Cas.Total, Sum;
    assert HeldRow(t, key) == HeldRow(s, key) + [0];
    assert IncomeRow(t, key) == IncomeRow(s, key) + [0];
    SumAppend(HeldRow(s, key), 0);
    SumAppend(IncomeRow(s, key), 0);
  }

  lemma {:induction false} AlwaysBalanced(events: seq<Event>, key: string)
    requires ValidEvents(events)
    ensures Balanced(Run(events), key)
  {
    if events == [] {
      assert HeldRow(IDLE, key) == [] && IncomeRow(IDLE, key) == [];
    } else {
      var s, e := Run(events[..|events| - 1]), events[|events| - 1];
      AlwaysBalanced(events[..|events| - 1], key);
      RunInv(events[..|events| - 1]);
      hide SystemInv, Balanced, Advance;
      match e
      case Start(request) => StartKeepsBalance(s, request, key);
      case Turn(i) =>
        if i < |s.calls| {
          AdvanceKeepsBalance(s, i, key);
        }
    }
  }

  // ----- the accounting theorems -----

  lemma OutstandingIsOneOrNone(s: System, i: nat)
    requires SystemInv(s) && i < |s.calls|
    ensures 0 <= Outstanding(s, i) <= 1
  {
    var c := s.calls[i];
    ExecInv(c.request, c.answers);
    hide Cas.Inv, Exec, Usable, PositionOk, SentOk, ResourcesOk, DecisionsOk, OpOf;
  }

  /** Global accounting, whatever configurations the calls resolved and however they
      interleave: what a key holds, together with the tokens of all retries sent and all
      reservations outstanding, never exceeds the capacity its bucket was created with plus
      what successful calls earned. A key without a bucket has seen no retry. */
  lemma GlobalAccounting(events: seq<Event>, key: string)
    requires ValidEvents(events)
    ensures
      var s := Run(events);
      var m := Cas.Contents(s.budget);
      if key in m then
        m[key] + Sum(HeldRow(s, key)) <= Cas.CreatedWith(s.budget.log, key) + Sum(IncomeRow(s, key))
      else Sum(HeldRow(s, key)) == 0
  {
    var s := Run(events);
    RunInv(events);
    AlwaysBalanced(events, key);
    Cas.InvValidLog(s.budget);
    Cas.Conservation(s.budget.log, key);
    hide Cas.Total, Sum, Cas.CreatedWith, FlightOk, Run;
  }

  // ----- one configuration -----

  /** All calls to the downstream `key` that have a budget have the same one. */
  predicate OneConfig(events: seq<Event>, key: string, cfg: Config) {
    forall i :: 0 <= i < |events| && events[i].Start? ==>
      var r := events[i].request;
      r.budget.enabled && BudgetKey(r.downstream) == key ==> r.budget == cfg
  }

  predicate Conforms(s: System, key: string, cfg: Config) {
    && (forall i :: 0 <= i < |s.calls| && Uses(s.calls[i], key) ==> s.calls[i].request.budget == cfg)
    && (forall id :: 0 <= id < |s.budget.calls| && s.budget.calls[id].op.key == key ==>
          s.budget.calls[id].op.capacity == cfg.capacity)
  }

  lemma ApplyConforms(s: System, e: Event, key: string, cfg: Config)
    requires SystemInv(s) && Conforms(s, key, cfg)
    requires e.Start? && e.request.budget.enabled && BudgetKey(e.request.downstream) == key ==> e.request.budget == cfg
    ensures Conforms(Apply(s, e), key, cfg)
  {
    hide Cas.Inv, Cas.Step, Exec, BudgetKey, Usable;
    if e.Turn? && e.call < |s.calls| {
      var c := s.calls[e.call];
      if c.inFlight.Some? {
        FlightAsks(s, e.call);
        Cas.StepIsStepped(s.budget, c.inFlight.value);
      }
      hide SystemInv;
    }
  }

  lemma {:induction false} RunConforms(events: seq<Event>, key: string, cfg: Config)
    requires ValidEvents(events) && OneConfig(events, key, cfg)
    ensures Conforms(Run(events), key, cfg)
  {
    if events != [] {
      RunConforms(events[..|events| - 1], key, cfg);
      RunInv(events[..|events| - 1]);
      hide SystemInv, Conforms, Apply;
      ApplyConforms(Run(events[..|events| - 1]), events[|events| - 1], key, cfg);
    }
  }

  function RetriesRow(s: System, key: string): seq<int> {
    seq(|s.calls|, i requires 0 <= i < |s.calls| => if Uses(s.calls[i], key) then RetryCount(Local(s.calls[i])) else 0)
  }

  function OutstandingRow(s: System, key: string): seq<int> {
    seq(|s.calls|, i requires 0 <= i < |s.calls| => if Uses(s.calls[i], key) then Outstanding(s, i) else 0)
  }

  function SuccessRow(s: System, key: string): seq<int> {
    seq(|s.calls|, i requires 0 <= i < |s.calls| => if Uses(s.calls[i], key) && Credited(s, i) then 1 else 0)
  }

  lemma Distributes(factor: int, a: int, b: int)
    ensures Price(factor, a + b) == Price(factor, a) + Price(factor, b)
  {
  }

  lemma {:induction false} SumOfScaled(xs: seq<int>, ys: seq<int>, zs: seq<int>, factor: int)
    requires |xs| == |ys| == |zs|
    requires forall i :: 0 <= i < |xs| ==> zs[i] == Price(factor, xs[i] + ys[i])
    ensures Sum(zs) == Price(factor, Sum(xs) + Sum(ys))
  {
    if xs != [] {
      var n := |xs| - 1;
      SumOfScaled(xs[..n], ys[..n], zs[..n], factor);
      Distributes(factor, Sum(xs[..n]) + Sum(ys[..n]), xs[n] + ys[n]);
    }
  }

  lemma {:induction false} SumNotNegative(xs: seq<int>)
    requires forall i :: 0 <= i < |xs| ==> xs[i] >= 0
    ensures Sum(xs) >= 0
  {
    if xs != [] {
      SumNotNegative(xs[..|xs| - 1]);
    }
  }

  lemma RowLengths(s: System, key: string)
    ensures |HeldRow(s, key)| == |RetriesRow(s, key)| == |OutstandingRow(s, key)| == |s.calls|
    ensures |IncomeRow(s, key)| == |SuccessRow(s, key)| == |s.calls|
  {
  }

  lemma HeldIsScaled(s: System, key: string, cfg: Config)
    requires Conforms(s, key, cfg)
    ensures Sum(HeldRow(s, key)) == Price(cfg.retryCost, Sum(RetriesRow(s, key)) + Sum(OutstandingRow(s, key)))
  {
    hide Sum, Exec, Outstanding, RetryCount, BudgetKey;
    forall i | 0 <= i < |s.calls|
      ensures HeldRow(s, key)[i] == Price(cfg.retryCost, RetriesRow(s, key)[i] + OutstandingRow(s, key)[i])
    {
    }
    hide HeldRow, RetriesRow, OutstandingRow, Price;
    RowLengths(s, key);
    SumOfScaled(RetriesRow(s, key), OutstandingRow(s, key), HeldRow(s, key), cfg.retryCost);
  }

  lemma {:induction false} SumOfNothing(xs: seq<int>)
    requires forall i :: 0 <= i < |xs| ==> xs[i] == 0
    ensures Sum(xs) == 0
  {
    if xs != [] {
      SumOfNothing(xs[..|xs| - 1]);
    }
  }

  lemma IncomeIsScaled(s: System, key: string, cfg: Config)
    requires Conforms(s, key, cfg)
    ensures Sum(IncomeRow(s, key)) == Price(cfg.successIncrement, Sum(SuccessRow(s, key)))
    ensures Sum(SuccessRow(s, key)) >= 0
  {
    hide Sum, Exec, Credited, BudgetKey;
    var none := seq(|s.calls|, i requires 0 <= i < |s.calls| => 0);
    forall i | 0 <= i < |s.calls|
      ensures IncomeRow(s, key)[i] == Price(cfg.successIncrement, SuccessRow(s, key)[i] + none[i])
    {
    }
    SumNotNegative(SuccessRow(s, key));
    SumOfNothing(none);
    hide IncomeRow, SuccessRow, Price;
    RowLengths(s, key);
    SumOfScaled(SuccessRow(s, key), none, IncomeRow(s, key), cfg.successIncrement);
  }

  lemma OutstandingNotNegative(s: System, key: string)
    requires SystemInv(s)
    ensures Sum(OutstandingRow(s, key)) >= 0
  {
    hide Sum, Exec, Outstanding, BudgetKey;
    forall i | 0 <= i < |s.calls|
      ensures OutstandingRow(s, key)[i] >= 0
    {
      OutstandingIsOneOrNone(s, i);
    }
    hide SystemInv;
    SumNotNegative(OutstandingRow(s, key));
  }

  /** Every bucket of the downstream was created full, and no balance is negative. */
  lemma BucketsOfOneConfig(s: System, key: string, cfg: Config)
    requires SystemInv(s) && Conforms(s, key, cfg) && key in Cas.Contents(s.budget)
    ensures Cas.CreatedWith(s.budget.log, key) == cfg.capacity && Cas.Contents(s.budget)[key] >= 0
  {
    Cas.InvValidLog(s.budget);
    hide FlightOk, Cas.CreatedWith, Cas.Legal, Cas.Replay, Cas.CallOk;
    Cas.LegalBounds(s.budget.log, Text.MAX_INT64);
    Cas.CreatedWithOneCapacity(s.budget.log, key, cfg.capacity);
  }

  lemma PriceNotNegative(cost: int, units: int)
    requires cost >= 0 && units >= 0
    ensures Price(cost, units) >= 0
  {
  }

  lemma Budgeted(cfg: Config, balance: int, held: int, income: int, retries: int, outstanding: int, successes: int)
    requires Positive(cfg) && outstanding >= 0 && successes >= 0
    requires balance >= 0 || balance == cfg.capacity
    requires held == Price(cfg.retryCost, retries + outstanding) && income == Price(cfg.successIncrement, successes)
    requires balance + held <= cfg.capacity + income || (balance == cfg.capacity && held == 0)
    ensures balance + Price(cfg.retryCost, retries + outstanding) <=
      cfg.capacity + Price(cfg.successIncrement, successes)
    ensures Price(cfg.retryCost, retries) <= cfg.capacity + Price(cfg.successIncrement, successes)
  {
    PriceNotNegative(cfg.retryCost, outstanding);
    PriceNotNegative(cfg.successIncrement, successes);
    Distributes(cfg.retryCost, retries, outstanding);
    hide Price;
  }

  /** With one configuration: the balance, the reservations outstanding and the retries sent
      to a downstream, at the price of a retry, never exceed the capacity plus the credit of
      the successful calls. In particular the retries sent are bounded by what was earned
      beyond one full bucket. */
  lemma RetriesAreBudgeted(events: seq<Event>, key: string, cfg: Config)
    requires ValidEvents(events) && OneConfig(events, key, cfg) && Positive(cfg)
    ensures
      var s := Run(events);
      var retries, outstanding, successes :=
        Sum(RetriesRow(s, key)), Sum(OutstandingRow(s, key)), Sum(SuccessRow(s, key));
      && BalanceOf(Cas.Contents(s.budget), key, cfg.capacity) + Price(cfg.retryCost, retries + outstanding)
           <= cfg.capacity + Price(cfg.successIncrement, successes)
      && 0 <= outstanding && Price(cfg.retryCost, retries) <= cfg.capacity + Price(cfg.successIncrement, successes)
  {
    hide SystemInv, Conforms, Run, Sum, HeldRow, IncomeRow, RetriesRow, OutstandingRow, SuccessRow, Cas.Contents,
      Cas.CreatedWith, OneConfig, ValidEvents, Price, Positive;
    var s := Run(events);
    RunInv(events);
    RunConforms(events, key, cfg);
    GlobalAccounting(events, key);
    HeldIsScaled(s, key, cfg);
    IncomeIsScaled(s, key, cfg);
    OutstandingNotNegative(s, key);
    if key in Cas.Contents(s.budget) {
      BucketsOfOneConfig(s, key, cfg);
    }
    var balance := BalanceOf(Cas.Contents(s.budget), key, cfg.capacity);
    Budgeted(cfg, balance, Sum(HeldRow(s, key)), Sum(IncomeRow(s, key)), Sum(RetriesRow(s, key)),
      Sum(OutstandingRow(s, key)), Sum(SuccessRow(s, key)));
  }

  // ----- by name -----

  /** The calls to a downstream that have a budget, under any of its names. */
  predicate CallsTo(c: Call, name: string) {
    c.request.budget.enabled && SameDownstream(c.request.downstream, name)
  }

  lemma UsesExactly(c: Call, name: string)
    ensures Uses(c, BudgetKey(name)) <==> CallsTo(c, name)
  {
    KeyExactly(c.request.downstream, name);
    hide BudgetKey, SameDownstream;
  }

  function RetriesTo(s: System, name: string): seq<int> {
    seq(|s.calls|, i requires 0 <= i < |s.calls| =>
      if CallsTo(s.calls[i], name) then RetryCount(Local(s.calls[i])) else 0)
  }

  function OutstandingTo(s: System, name: string): seq<int> {
    seq(|s.calls|, i requires 0 <= i < |s.calls| => if CallsTo(s.calls[i], name) then Outstanding(s, i) else 0)
  }

  function SuccessesTo(s: System, name: string): seq<int> {
    seq(|s.calls|, i requires 0 <= i < |s.calls| => if CallsTo(s.calls[i], name) && Credited(s, i) then 1 else 0)
  }

  lemma RowsByName(s: System, name: string)
    ensures RetriesRow(s, BudgetKey(name)) == RetriesTo(s, name)
    ensures OutstandingRow(s, BudgetKey(name)) == OutstandingTo(s, name)
    ensures SuccessRow(s, BudgetKey(name)) == SuccessesTo(s, name)
  {
    hide BudgetKey, CallsTo, Uses, Outstanding, Credited, RetryCount, Exec;
    forall i | 0 <= i < |s.calls|
      ensures Uses(s.calls[i], BudgetKey(name)) <==> CallsTo(s.calls[i], name)
    {
      UsesExactly(s.calls[i], name);
    }
  }

  predicate OneConfigByName(events: seq<Event>, name: string, cfg: Config) {
    forall i :: 0 <= i < |events| && events[i].Start? ==>
      var r := events[i].request;
      r.budget.enabled && SameDownstream(r.downstream, name) ==> r.budget == cfg
  }

  /** The accounting of a downstream counts the calls under all of its names, which differ only
      in case and surrounding blanks, and no others. */
  lemma DownstreamsAreBudgeted(events: seq<Event>, name: string, cfg: Config)
    requires ValidEvents(events) && Positive(cfg)
    requires OneConfigByName(events, name, cfg)
    ensures
      var s := Run(events);
      var retries, outstanding := Sum(RetriesTo(s, name)), Sum(OutstandingTo(s, name));
      && BalanceUnder(Cas.Contents(s.budget), name, cfg.capacity) + Price(cfg.retryCost, retries + outstanding)
           <= cfg.capacity + Price(cfg.successIncrement, Sum(SuccessesTo(s, name)))
      && 0 <= outstanding
           && Price(cfg.retryCost, retries) <= cfg.capacity + Price(cfg.successIncrement, Sum(SuccessesTo(s, name)))
  {
    hide Run, Sum, Price, BudgetKey, SameDownstream, RetriesTo, OutstandingTo, SuccessesTo, RetriesRow, OutstandingRow,
      SuccessRow, Cas.Contents, ValidEvents, Positive;
    forall i | 0 <= i < |events| && events[i].Start? && events[i].request.budget.enabled
        && BudgetKey(events[i].request.downstream) == BudgetKey(name)
      ensures events[i].request.budget == cfg
    {
      KeyExactly(events[i].request.downstream, name);
    }
    RowsByName(Run(events), name);
    RetriesAreBudgeted(events, BudgetKey(name), cfg);
  }
}
