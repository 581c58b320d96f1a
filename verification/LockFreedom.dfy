/** Lock-freedom of the retry budget: however the pending calls are interleaved, a bounded
    number of their instructions makes one of them return. Between returns only clamps write
    to existing entries, and each clamp lowers a balance for good. */
module LockFreedom {
  import opened Wrappers
  import opened Budget
  import opened BudgetCas

  predicate Pending(s: State, i: nat) {
    i < |s.calls| && !s.calls[i].pc.Returned?
  }

  function PendingCount(s: State, n: nat): nat
    requires n <= |s.calls|
  {
    if n == 0 then 0 else PendingCount(s, n - 1) + if Pending(s, n - 1) then 1 else 0
  }

  /** The reservation may still clamp: its bucket holds more than its capacity, or is missing. */
  predicate MayClamp(s: State, i: nat)
    requires i < |s.calls|
  {
    var op := s.calls[i].op;
    op.ReserveOp? && !(op.key in Contents(s) && Contents(s)[op.key] <= op.capacity)
  }

  /** The steps a call still needs, and what a clamp of its own may cost the others. */
  function Weight(s: State, i: nat, clamp: nat): nat
    requires i < |s.calls|
  {
    if Pending(s, i) then Rank(s, i) + if MayClamp(s, i) then clamp else 0 else 0
  }

  function Work(s: State, n: nat, clamp: nat): nat
    requires n <= |s.calls|
  {
    if n == 0 then 0 else Work(s, n - 1, clamp) + Weight(s, n - 1, clamp)
  }

  /** A step of call `i` after which it is still pending. */
  predicate Quiet(s: State, i: nat) {
    Pending(s, i) && Pending(Step(s, i), i)
  }

  predicate SameCells(s: State, t: State) {
    |s.cells| <= |t.cells| && forall c :: 0 <= c < |s.cells| ==> t.cells[c] == s.cells[c]
  }

  predicate NeverHigher(before: Balances, after: Balances) {
    forall k :: k in before ==> k in after && after[k] <= before[k]
  }

  lemma QuietLowers(s: State, i: nat)
    requires Inv(s) && Quiet(s, i)
    ensures NeverHigher(Contents(s), Contents(Step(s, i)))
  {
    assert CallOk(s, i);
    hide Faithful, LogOk;
  }

  /** It writes to an existing entry only by clamping, and then it will not clamp again. */
  lemma QuietWritesByClamping(s: State, i: nat)
    requires Inv(s) && Quiet(s, i)
    ensures SameCells(s, Step(s, i)) || (MayClamp(s, i) && !MayClamp(Step(s, i), i))
  {
    assert CallOk(s, i);
    hide Faithful, LogOk;
  }

  lemma OthersWeigh(s: State, i: nat, j: nat, clamp: nat)
    requires Inv(s) && Quiet(s, i) && j < |s.calls| && j != i
    ensures
      var t := Step(s, i);
      && j < |t.calls| && Pending(t, j) == Pending(s, j)
      && Weight(t, j, clamp) <= Weight(s, j, clamp) + if !SameCells(s, t) && Pending(s, j) then 3 else 0
  {
    QuietLowers(s, i);
    StepIsStepped(s, i);
    assert CallOk(s, j);
    var t := Step(s, i);
    assert t.calls[j] == s.calls[j];
    hide Step, Contents, Faithful, LogOk, CallOk, Stepped, SeenOk;
    assert MayClamp(t, j) ==> MayClamp(s, j);
  }

  lemma OwnWeight(s: State, i: nat, clamp: nat)
    requires Inv(s) && Quiet(s, i)
    ensures
      var t := Step(s, i);
      && Weight(t, i, clamp) < Weight(s, i, clamp)
      && (!SameCells(s, t) ==> Weight(t, i, clamp) + clamp < Weight(s, i, clamp))
  {
    QuietLowers(s, i);
    QuietWritesByClamping(s, i);
    StepLowersRank(s, i);
    StepIsStepped(s, i);
    hide Step, Contents, Inv, SameCells, Rank;
    assert Step(s, i).calls[i].op == s.calls[i].op;
  }

  lemma QuietKeepsCalls(s: State, i: nat)
    requires Inv(s) && Quiet(s, i)
    ensures |Step(s, i).calls| == |s.calls| && Pending(s, i) && Pending(Step(s, i), i)
  {
    StepIsStepped(s, i);
    hide Inv, Step;
  }

  lemma {:induction false} WorkOfStep(s: State, i: nat, n: nat, clamp: nat)
    requires Inv(s) && Quiet(s, i) && n <= |s.calls|
    ensures
      var t := Step(s, i);
      && |t.calls| == |s.calls| && PendingCount(t, n) == PendingCount(s, n)
      && Work(t, n, clamp) <= Work(s, n, clamp) + (if SameCells(s, t) then 0 else 3 * PendingCount(s, n))
                              + (if i < n then Weight(t, i, clamp) - Weight(s, i, clamp) else 0)
  {
    hide Step, Inv, SameCells, Weight, Quiet, Pending;
    QuietKeepsCalls(s, i);
    if n > 0 {
      WorkOfStep(s, i, n - 1, clamp);
      if n - 1 != i {
        OthersWeigh(s, i, n - 1, clamp);
      }
    }
  }

  /** Each quiet step leaves less to do, when a clamp weighs four times the pending calls. */
  lemma QuietProgress(s: State, i: nat)
    requires Inv(s) && Quiet(s, i)
    ensures
      var t, n := Step(s, i), |s.calls|;
      var clamp := 4 * PendingCount(s, n);
      && |t.calls| == n && PendingCount(t, n) == PendingCount(s, n)
      && Work(t, n, clamp) < Work(s, n, clamp)
  {
    var n := |s.calls|;
    var clamp := 4 * PendingCount(s, n);
    WorkOfStep(s, i, n, clamp);
    OwnWeight(s, i, clamp);
    hide Step, Inv, SameCells, Weight, Work, PendingCount;
  }

  lemma {:induction false} WorkIsBounded(s: State, n: nat, clamp: nat)
    requires n <= |s.calls|
    ensures Work(s, n, clamp) <= PendingCount(s, n) * (5 + clamp)
  {
    hide MayClamp, Pending;
    if n > 0 {
      WorkIsBounded(s, n - 1, clamp);
      var one := 5 + clamp;
      assert PendingCount(s, n) * one == PendingCount(s, n - 1) * one + if Pending(s, n - 1) then one else 0;
      assert Weight(s, n - 1, clamp) <= if Pending(s, n - 1) then 5 + clamp else 0;
    }
  }

  function Bound(p: nat): nat {
    p * (5 + 4 * p)
  }

  lemma WorkFits(s: State, n: nat)
    requires n <= |s.calls|
    ensures Work(s, n, 4 * PendingCount(s, n)) <= Bound(PendingCount(s, n))
  {
    WorkIsBounded(s, n, 4 * PendingCount(s, n));
    hide Work, PendingCount;
  }

  /** Instructions of calls pending in `s`. */
  predicate TurnsOf(s: State, turns: seq<Event>) {
    forall k :: 0 <= k < |turns| ==> turns[k].Run? && Pending(s, turns[k].call)
  }

  /** No call pending in `s` has returned in `t`. */
  predicate NoneReturned(s: State, t: State) {
    |t.calls| == |s.calls| && forall i :: 0 <= i < |s.calls| && Pending(s, i) ==> Pending(t, i)
  }

  /** What has not returned after a step had not returned before it. */
  lemma NoneReturnedBefore(s: State, mid: State, i: nat)
    requires Inv(mid) && i < |mid.calls| && NoneReturned(s, Step(mid, i))
    ensures NoneReturned(s, mid)
  {
    StepIsStepped(mid, i);
    hide Inv, Step;
  }

  /** Turns keep the calls and the invariant. */
  lemma {:induction false} QuietRunState(s: State, turns: seq<Event>)
    requires Inv(s) && TurnsOf(s, turns)
    ensures Inv(Exec(s, turns)) && |Exec(s, turns).calls| == |s.calls|
  {
    if turns != [] {
      QuietRunState(s, turns[..|turns| - 1]);
      StepKeepsInv(Exec(s, turns[..|turns| - 1]), turns[|turns| - 1].call);
      StepIsStepped(Exec(s, turns[..|turns| - 1]), turns[|turns| - 1].call);
      hide Inv, Step;
    }
  }

  lemma {:induction false} QuietRun(s: State, turns: seq<Event>)
    requires Inv(s) && TurnsOf(s, turns) && NoneReturned(s, Exec(s, turns))
    ensures
      var t, n := Exec(s, turns), |s.calls|;
      var clamp := 4 * PendingCount(s, n);
      Inv(t) && PendingCount(t, n) == PendingCount(s, n) && Work(t, n, clamp) + |turns| <= Work(s, n, clamp)
  {
    if turns != [] {
      var before, i := turns[..|turns| - 1], turns[|turns| - 1].call;
      var mid := Exec(s, before);
      QuietRunState(s, before);
      hide Inv, Step, Work, PendingCount, Pending;
      assert Exec(s, turns) == Apply(mid, turns[|turns| - 1]);
      NoneReturnedBefore(s, mid, i);
      QuietRun(s, before);
      assert Pending(s, i);
      QuietProgress(mid, i);
      StepKeepsInv(mid, i);
    }
  }

  /** The budget is lock-free: from every reachable state with `p` pending calls, any
      p (4p + 5) + 1 instructions of theirs, interleaved in any way, make at least one of them
      return, whatever capacities they carry. */
  lemma SomeCallReturns(events: seq<Event>, turns: seq<Event>)
    requires ValidEvents(events) && TurnsOf(Exec(INIT, events), turns)
    requires |turns| > Bound(PendingCount(Exec(INIT, events), |Exec(INIT, events).calls|))
    ensures
      var s := Exec(INIT, events);
      exists i :: 0 <= i < |s.calls| && Pending(s, i) && !Pending(Exec(s, turns), i)
  {
    var s := Exec(INIT, events);
    var n := |s.calls|;
    ReachableInv(events);
    QuietRunState(s, turns);
    hide Inv, Exec, Work, PendingCount, Bound;
    WorkFits(s, n);
    if NoneReturned(s, Exec(s, turns)) {
      QuietRun(s, turns);
    }
  }
}
