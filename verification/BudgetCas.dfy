/** The retry budget under concurrency. Any number of goroutines run `reserve`, `refund`
    and `recordSuccess` interleaved at the granularity of single atomic instructions:
    map load, LoadOrStore, balance load, compare-and-swap. A schedule is a sequence of
    events; a run is the fold of a schedule. Each step that takes effect is logged, and
    the log is the linearization. */
module BudgetCas {
  import opened Wrappers
  import opened Text
  import opened Budget

  /** A budget call with the configuration its caller resolved. */
  datatype Op =
    | ReserveOp(key: string, capacity: int, amount: int)
    | RefundOp(key: string, capacity: int, amount: int)
    | SuccessOp(key: string, capacity: int, amount: int)

  predicate ValidOp(op: Op) {
    0 < op.capacity <= MAX_INT64 && 0 < op.amount <= MAX_INT64
  }

  /** The next instruction of a call; `at` is the length of the log when `seen` was read. */
  datatype Pc =
    | EntryLoad
    | EntryStore
    | Load(cell: nat)
    | ClampCas(cell: nat, seen: int, at: nat)
    | DebitCas(cell: nat, seen: int, at: nat)
    | CreditCas(cell: nat, seen: int, at: nat)
    | Returned(granted: bool)

  /** What a step does to the bucket. The first two are preparations a call may perform
      more than once; each of the others decides its call. */
  datatype Act = Create | ClampTo | Debit | Deny | Credit | Full | Skip

  predicate Decisive(act: Act) {
    !act.Create? && !act.ClampTo?
  }

  predicate Writes(act: Act) {
    act.ClampTo? || act.Debit? || act.Credit?
  }

  datatype Atom = Atom(call: nat, op: Op, act: Act)

  /** `invokedAt` and `decidedAt` are positions in the log. */
  datatype Call = Call(op: Op, pc: Pc, invokedAt: nat, decidedAt: Option<nat>)

  /** `cells` is the heap of entries ever allocated, `entries` the shared map. */
  datatype State = State(cells: seq<int>, entries: map<string, nat>, calls: seq<Call>, log: seq<Atom>)

  const INIT := State([], map[], [], [])

  datatype Event = Invoke(op: Op) | Run(call: nat)

  // ----- the instructions -----

  function CellAt(s: State, cell: nat): int {
    if cell < |s.cells| then s.cells[cell] else 0
  }

  function Write(cells: seq<int>, cell: nat, value: int): seq<int> {
    if cell < |cells| then cells[cell := value] else cells
  }

  function Goto(s: State, i: nat, pc: Pc): State
    requires i < |s.calls|
  {
    s.(calls := s.calls[i := s.calls[i].(pc := pc)])
  }

  /** Logs `act` as the effect that decides call `i`, and returns from it. */
  function Finish(s: State, i: nat, act: Act): State
    requires i < |s.calls|
  {
    var c := s.calls[i];
    s.(log := s.log + [Atom(i, c.op, act)],
       calls := s.calls[i := c.(pc := Returned(act.Debit?), decidedAt := Some(|s.log|))])
  }

  /** Logs a preparation of call `i`. */
  function Note(s: State, i: nat, act: Act): State
    requires i < |s.calls|
  {
    s.(log := s.log + [Atom(i, s.calls[i].op, act)])
  }

  function StepEntryLoad(s: State, i: nat): State
    requires i < |s.calls|
  {
    var op := s.calls[i].op;
    if op.key in s.entries then Goto(s, i, Load(s.entries[op.key]))
    else if op.SuccessOp? then Finish(s, i, Skip)
    else Goto(s, i, EntryStore)
  }

  /** The candidate is always allocated; LoadOrStore publishes it only on a free key. */
  function StepEntryStore(s: State, i: nat): State
    requires i < |s.calls|
  {
    var op := s.calls[i].op;
    var candidate := |s.cells|;
    var grown := s.(cells := s.cells + [op.capacity]);
    if op.key in s.entries then Goto(grown, i, Load(s.entries[op.key]))
    else Goto(Note(grown.(entries := s.entries[op.key := candidate]), i, Create), i, Load(candidate))
  }

  function StepLoad(s: State, i: nat, cell: nat): State
    requires i < |s.calls|
  {
    var op := s.calls[i].op;
    var balance := CellAt(s, cell);
    if op.ReserveOp? then
      if balance > op.capacity then Goto(s, i, ClampCas(cell, balance, |s.log|))
      else if balance < op.amount then Finish(s, i, Deny)
      else Goto(s, i, DebitCas(cell, balance, |s.log|))
    else if balance == op.capacity then Finish(s, i, Full)
    else Goto(s, i, CreditCas(cell, balance, |s.log|))
  }

  function StepClamp(s: State, i: nat, cell: nat, seen: int): State
    requires i < |s.calls|
  {
    var op := s.calls[i].op;
    if CellAt(s, cell) != seen then Goto(s, i, Load(cell))
    else
      var clamped := Note(s.(cells := Write(s.cells, cell, op.capacity)), i, ClampTo);
      if op.capacity < op.amount then Finish(clamped, i, Deny)
      else Goto(clamped, i, DebitCas(cell, op.capacity, |clamped.log|))
  }

  function StepDebit(s: State, i: nat, cell: nat, seen: int): State
    requires i < |s.calls|
  {
    if CellAt(s, cell) != seen then Goto(s, i, Load(cell))
    else Finish(s.(cells := Write(s.cells, cell, seen - s.calls[i].op.amount)), i, Debit)
  }

  /** The value a credit swaps in, as the code computes it. */
  function CreditTarget(op: Op, seen: int): int {
    if seen >= op.capacity then op.capacity
    else if op.amount < op.capacity - seen then seen + op.amount
    else op.capacity
  }

  function StepCredit(s: State, i: nat, cell: nat, seen: int): State
    requires i < |s.calls|
  {
    if CellAt(s, cell) != seen then Goto(s, i, Load(cell))
    else Finish(s.(cells := Write(s.cells, cell, CreditTarget(s.calls[i].op, seen))), i, Credit)
  }

  function Step(s: State, i: nat): State
    requires i < |s.calls|
  {
    match s.calls[i].pc
    case EntryLoad => StepEntryLoad(s, i)
    case EntryStore => StepEntryStore(s, i)
    case Load(cell) => StepLoad(s, i, cell)
    case ClampCas(cell, seen, _) => StepClamp(s, i, cell, seen)
    case DebitCas(cell, seen, _) => StepDebit(s, i, cell, seen)
    case CreditCas(cell, seen, _) => StepCredit(s, i, cell, seen)
    case Returned(_) => s
  }

  function InvokeOp(s: State, op: Op): State {
    s.(calls := s.calls + [Call(op, EntryLoad, |s.log|, None)])
  }

  function Apply(s: State, e: Event): State {
    match e
    case Invoke(op) => InvokeOp(s, op)
    case Run(i) => if i < |s.calls| then Step(s, i) else s
  }

  function Exec(s: State, events: seq<Event>): State {
    if events == [] then s
    else Apply(Exec(s, events[..|events| - 1]), events[|events| - 1])
  }

  // ----- the bucket the log describes -----

  function ApplyAtom(m: Balances, a: Atom): Balances {
    match a.act
    case Create => m[a.op.key := a.op.capacity]
    case ClampTo => m[a.op.key := a.op.capacity]
    case Debit => m[a.op.key := BalanceOf(m, a.op.key, a.op.capacity) - a.op.amount]
    case Credit => m[a.op.key := CreditOn(BalanceOf(m, a.op.key, a.op.capacity), a.op.amount, a.op.capacity)]
    case _ => m
  }

  /** When an atomic bucket may take this action with this answer. */
  predicate Enabled(m: Balances, a: Atom) {
    var key, op := a.op.key, a.op;
    match a.act
    case Create => key !in m
    case ClampTo => op.ReserveOp? && key in m && m[key] > op.capacity
    case Debit => op.ReserveOp? && key in m && op.amount <= m[key] <= op.capacity
    case Deny => op.ReserveOp? && key in m && m[key] <= op.capacity && m[key] < op.amount
    case Credit => !op.ReserveOp? && key in m && m[key] != op.capacity
    case Full => !op.ReserveOp? && key in m && m[key] == op.capacity
    case Skip => op.SuccessOp? && key !in m
  }

  function Replay(log: seq<Atom>): Balances {
    if log == [] then map[]
    else ApplyAtom(Replay(log[..|log| - 1]), log[|log| - 1])
  }

  predicate Legal(log: seq<Atom>) {
    log == [] || (Legal(log[..|log| - 1]) && Enabled(Replay(log[..|log| - 1]), log[|log| - 1]))
  }

  lemma ReplayAppend(log: seq<Atom>, a: Atom)
    ensures Replay(log + [a]) == ApplyAtom(Replay(log), a)
    ensures Legal(log + [a]) == (Legal(log) && Enabled(Replay(log), a))
  {
    assert (log + [a])[..|log|] == log;
  }

  function Contents(s: State): Balances {
    map k | k in s.entries :: CellAt(s, s.entries[k])
  }

  // ----- invariant -----

  predicate HasCell(pc: Pc) {
    !pc.EntryLoad? && !pc.EntryStore? && !pc.Returned?
  }

  predicate HasSeen(pc: Pc) {
    pc.ClampCas? || pc.DebitCas? || pc.CreditCas?
  }

  predicate Undisturbed(log: seq<Atom>, at: nat, key: string) {
    forall j :: at <= j < |log| ==> !(Writes(log[j].act) && log[j].op.key == key)
  }

  predicate NotBy(log: seq<Atom>, at: nat, i: nat) {
    forall j :: at <= j < |log| ==> log[j].call != i
  }

  /** What a call knows about the value it is about to swap. */
  predicate SeenOk(s: State, i: nat)
    requires i < |s.calls| && HasSeen(s.calls[i].pc)
  {
    var op, pc := s.calls[i].op, s.calls[i].pc;
    && pc.at <= |s.log| && NotBy(s.log, pc.at, i)
    && (Undisturbed(s.log, pc.at, op.key) ==> CellAt(s, pc.cell) == pc.seen)
    && (pc.ClampCas? ==> op.ReserveOp? && pc.seen > op.capacity)
    && (pc.DebitCas? ==> op.ReserveOp? && op.amount <= pc.seen <= op.capacity)
    && (pc.CreditCas? ==> !op.ReserveOp? && pc.seen != op.capacity)
  }

  predicate Decided(s: State, i: nat)
    requires i < |s.calls| && s.calls[i].decidedAt.Some? && s.calls[i].pc.Returned?
  {
    var c := s.calls[i];
    var d := c.decidedAt.value;
    && c.invokedAt <= d < |s.log|
    && s.log[d].call == i && s.log[d].op == c.op && Decisive(s.log[d].act)
    && c.pc.granted == s.log[d].act.Debit?
  }

  predicate CallOk(s: State, i: nat)
    requires i < |s.calls|
  {
    var c := s.calls[i];
    && c.invokedAt <= |s.log|
    && (c.decidedAt.Some? <==> c.pc.Returned?)
    && (c.pc.Returned? ==> Decided(s, i))
    && (c.pc.EntryStore? ==> !c.op.SuccessOp?)
    && (HasCell(c.pc) ==> c.op.key in s.entries && s.entries[c.op.key] == c.pc.cell)
    && (HasSeen(c.pc) ==> SeenOk(s, i))
  }

  predicate LogOk(s: State) {
    forall j :: 0 <= j < |s.log| ==>
      && s.log[j].call < |s.calls|
      && s.log[j].op == s.calls[s.log[j].call].op
      && (Decisive(s.log[j].act) ==> s.calls[s.log[j].call].decidedAt == Some(j))
  }

  predicate EntriesOk(s: State) {
    && (forall k :: k in s.entries ==> s.entries[k] < |s.cells|)
    && (forall k, k' :: k in s.entries && k' in s.entries && k != k' ==> s.entries[k] != s.entries[k'])
  }

  /** The shared map holds what the logged actions make of an atomic bucket, and the
      bucket allows each of them with the answer it got. */
  predicate Faithful(s: State) {
    Contents(s) == Replay(s.log) && Legal(s.log)
  }

  predicate Inv(s: State) {
    && EntriesOk(s)
    && LogOk(s)
    && (forall i :: 0 <= i < |s.calls| ==> CallOk(s, i))
    && Faithful(s)
    && (forall i :: 0 <= i < |s.calls| ==> ValidOp(s.calls[i].op))
  }

  /** `t` is what a step of call `i` makes of `s`: the log grows by actions of `i`, and only
      the cell of `i`'s key changes, and only if such a change was logged. */
  predicate Stepped(s: State, t: State, i: nat)
    requires i < |s.calls|
  {
    && |t.calls| == |s.calls| && t.calls[i].op == s.calls[i].op && t.calls[i].invokedAt == s.calls[i].invokedAt
    && (s.calls[i].pc.Returned? ==> t == s)
    && (forall j :: 0 <= j < |s.calls| && j != i ==> t.calls[j] == s.calls[j])
    && s.log <= t.log
    && (forall j :: |s.log| <= j < |t.log| ==> t.log[j].call == i && t.log[j].op == s.calls[i].op)
    && (forall j :: |s.log| <= j < |t.log| && Decisive(t.log[j].act) ==> t.calls[i].decidedAt == Some(j))
    && (forall k :: k in s.entries ==> k in t.entries && t.entries[k] == s.entries[k])
    && |s.cells| <= |t.cells|
    && (forall k :: k in s.entries && s.entries[k] < |s.cells| && t.cells[s.entries[k]] != s.cells[s.entries[k]] ==>
          exists j :: |s.log| <= j < |t.log| && Writes(t.log[j].act) && t.log[j].op.key == k)
  }

  lemma StepIsStepped(s: State, i: nat)
    requires Inv(s) && i < |s.calls|
    ensures Stepped(s, Step(s, i), i)
  {
    hide Faithful, LogOk;
    var t := Step(s, i);
    var c := s.calls[i];
    assert CallOk(s, i);
    if HasSeen(c.pc) && CellAt(s, c.pc.cell) == c.pc.seen {
      assert t.log[|s.log|].op.key == c.op.key && Writes(t.log[|s.log|].act);
      forall k | k in s.entries && t.cells[s.entries[k]] != s.cells[s.entries[k]]
        ensures k == c.op.key
      {
      }
    }
  }

  /** A step of one call keeps what every other call knows. */
  lemma FrameCall(s: State, t: State, i: nat, j: nat)
    requires Inv(s) && i < |s.calls| && j < |s.calls| && i != j && Stepped(s, t, i)
    ensures CallOk(t, j)
  {
    var c := s.calls[j];
    assert CallOk(s, j) && t.calls[j] == c;
    if HasSeen(c.pc) {
      var key := c.op.key;
      if Undisturbed(t.log, c.pc.at, key) {
        forall n | c.pc.at <= n < |s.log|
          ensures !(Writes(s.log[n].act) && s.log[n].op.key == key)
        {
          assert t.log[n] == s.log[n];
        }
        assert Undisturbed(s.log, c.pc.at, key);
      }
      forall n | c.pc.at <= n < |t.log|
        ensures t.log[n].call != j
      {
        if n < |s.log| {
          assert t.log[n] == s.log[n];
        }
      }
    }
  }

  /** One logged action, together with the cell write it stands for. */
  lemma LogOne(s: State, t: State, a: Atom)
    requires Faithful(s)
    requires t.log == s.log + [a] && Enabled(Contents(s), a)
    requires Contents(t) == ApplyAtom(Contents(s), a)
    ensures Faithful(t)
  {
    ReplayAppend(s.log, a);
  }

  lemma WriteContents(s: State, key: string, value: int)
    requires EntriesOk(s) && key in s.entries
    ensures Contents(s.(cells := Write(s.cells, s.entries[key], value))) == Contents(s)[key := value]
  {
  }

  lemma SameContents(s: State, t: State)
    requires s.cells == t.cells && s.entries == t.entries
    ensures Contents(s) == Contents(t)
  {
  }

  lemma ClampKeepsContents(s: State, i: nat, cell: nat, seen: int)
    requires EntriesOk(s) && Faithful(s) && i < |s.calls|
    requires s.calls[i].op.ReserveOp? && seen > s.calls[i].op.capacity
    requires s.calls[i].op.key in s.entries && s.entries[s.calls[i].op.key] == cell
    ensures Faithful(StepClamp(s, i, cell, seen))
  {
    var t, op := StepClamp(s, i, cell, seen), s.calls[i].op;
    if CellAt(s, cell) == seen {
      var written := s.(cells := Write(s.cells, cell, op.capacity));
      var clamped := Note(written, i, ClampTo);
      WriteContents(s, op.key, op.capacity);
      SameContents(written, clamped);
      LogOne(s, clamped, Atom(i, op, ClampTo));
      SameContents(clamped, t);
      if op.capacity < op.amount {
        LogOne(clamped, t, Atom(i, op, Deny));
      }
    } else {
      SameContents(s, t);
    }
  }

  lemma DebitKeepsContents(s: State, i: nat, cell: nat, seen: int)
    requires EntriesOk(s) && Faithful(s) && i < |s.calls|
    requires s.calls[i].op.ReserveOp? && s.calls[i].op.amount <= seen <= s.calls[i].op.capacity
    requires s.calls[i].op.key in s.entries && s.entries[s.calls[i].op.key] == cell
    ensures Faithful(StepDebit(s, i, cell, seen))
  {
    var t, op := StepDebit(s, i, cell, seen), s.calls[i].op;
    if CellAt(s, cell) == seen {
      var written := s.(cells := Write(s.cells, cell, seen - op.amount));
      WriteContents(s, op.key, seen - op.amount);
      SameContents(written, t);
      LogOne(s, t, Atom(i, op, Debit));
    } else {
      SameContents(s, t);
    }
  }

  lemma CreditKeepsContents(s: State, i: nat, cell: nat, seen: int)
    requires EntriesOk(s) && Faithful(s) && i < |s.calls|
    requires !s.calls[i].op.ReserveOp? && seen != s.calls[i].op.capacity && 0 < s.calls[i].op.amount
    requires s.calls[i].op.key in s.entries && s.entries[s.calls[i].op.key] == cell
    ensures Faithful(StepCredit(s, i, cell, seen))
  {
    var t, op := StepCredit(s, i, cell, seen), s.calls[i].op;
    if CellAt(s, cell) == seen {
      var written := s.(cells := Write(s.cells, cell, CreditTarget(op, seen)));
      WriteContents(s, op.key, CreditTarget(op, seen));
      SameContents(written, t);
      LogOne(s, t, Atom(i, op, Credit));
    } else {
      SameContents(s, t);
    }
  }

  lemma LookupKeepsContents(s: State, i: nat)
    requires Faithful(s) && i < |s.calls|
    ensures Faithful(StepEntryLoad(s, i))
  {
    var t, op := StepEntryLoad(s, i), s.calls[i].op;
    SameContents(s, t);
    if op.key !in s.entries && op.SuccessOp? {
      LogOne(s, t, Atom(i, op, Skip));
    }
  }

  lemma StoreKeepsContents(s: State, i: nat)
    requires EntriesOk(s) && Faithful(s) && i < |s.calls|
    ensures Faithful(StepEntryStore(s, i))
  {
    var t, op := StepEntryStore(s, i), s.calls[i].op;
    if op.key !in s.entries {
      assert Contents(t) == Contents(s)[op.key := op.capacity];
      LogOne(s, t, Atom(i, op, Create));
    } else {
      assert Contents(t) == Contents(s);
    }
  }

  lemma LoadKeepsContents(s: State, i: nat, cell: nat)
    requires EntriesOk(s) && Faithful(s) && i < |s.calls|
    requires s.calls[i].op.key in s.entries && s.entries[s.calls[i].op.key] == cell
    ensures Faithful(StepLoad(s, i, cell))
  {
    var t, op := StepLoad(s, i, cell), s.calls[i].op;
    SameContents(s, t);
    if |t.log| > |s.log| {
      LogOne(s, t, Atom(i, op, if op.ReserveOp? then Deny else Full));
    }
  }

  lemma StepKeepsContents(s: State, i: nat)
    requires Inv(s) && i < |s.calls|
    ensures Faithful(Step(s, i))
  {
    assert CallOk(s, i);
    match s.calls[i].pc
    case EntryLoad => LookupKeepsContents(s, i);
    case EntryStore => StoreKeepsContents(s, i);
    case Load(cell) => LoadKeepsContents(s, i, cell);
    case ClampCas(cell, seen, _) => ClampKeepsContents(s, i, cell, seen);
    case DebitCas(cell, seen, _) => DebitKeepsContents(s, i, cell, seen);
    case CreditCas(cell, seen, _) => CreditKeepsContents(s, i, cell, seen);
    case Returned(_) =>
  }

  lemma StepKeepsEntries(s: State, i: nat)
    requires EntriesOk(s) && i < |s.calls|
    ensures EntriesOk(Step(s, i))
  {
    hide CreditTarget;
  }

  lemma StepKeepsLog(s: State, i: nat)
    requires Inv(s) && i < |s.calls|
    ensures LogOk(Step(s, i))
  {
    StepIsStepped(s, i);
    assert CallOk(s, i);
    hide Faithful, Step, EntriesOk, SeenOk;
    var t := Step(s, i);
    forall j | 0 <= j < |t.log|
      ensures t.log[j].call < |t.calls| && t.log[j].op == t.calls[t.log[j].call].op
      ensures Decisive(t.log[j].act) ==> t.calls[t.log[j].call].decidedAt == Some(j)
    {
      if j < |s.log| {
        assert t.log[j] == s.log[j];
      }
    }
  }

  lemma StepKeepsCall(s: State, i: nat)
    requires Inv(s) && i < |s.calls|
    ensures CallOk(Step(s, i), i)
  {
    hide Faithful, LogOk, ValidOp;
    assert CallOk(s, i);
    var t := Step(s, i);
    var c := s.calls[i];
    if c.pc.ClampCas? && t.calls[i].pc.DebitCas? {
      assert c.op.key in s.entries && s.entries[c.op.key] == c.pc.cell;
    }
  }

  lemma StepKeepsInv(s: State, i: nat)
    requires Inv(s) && i < |s.calls|
    ensures Inv(Step(s, i))
  {
    var t := Step(s, i);
    StepIsStepped(s, i);
    StepKeepsContents(s, i);
    StepKeepsLog(s, i);
    StepKeepsEntries(s, i);
    hide Step, Faithful, EntriesOk, LogOk, CallOk;
    forall j | 0 <= j < |t.calls|
      ensures CallOk(t, j)
    {
      if j == i {
        StepKeepsCall(s, i);
      } else {
        FrameCall(s, t, i, j);
      }
    }
  }

  predicate ValidEvents(events: seq<Event>) {
    forall i :: 0 <= i < |events| && events[i].Invoke? ==> ValidOp(events[i].op)
  }

  lemma ApplyKeepsInv(s: State, e: Event)
    requires Inv(s) && (e.Invoke? ==> ValidOp(e.op))
    ensures Inv(Apply(s, e))
  {
    if e.Run? && e.call < |s.calls| {
      StepKeepsInv(s, e.call);
    } else if e.Invoke? {
      var t := Apply(s, e);
      SameContents(s, t);
      forall j | 0 <= j < |t.calls|
        ensures CallOk(t, j)
      {
        if j < |s.calls| {
          assert CallOk(s, j) && t.calls[j] == s.calls[j];
        }
      }
    }
  }

  lemma {:induction false} ReachableInv(events: seq<Event>)
    requires ValidEvents(events)
    ensures Inv(Exec(INIT, events))
  {
    if events == [] {
      assert Contents(INIT) == map[];
    } else {
      ReachableInv(events[..|events| - 1]);
      ApplyKeepsInv(Exec(INIT, events[..|events| - 1]), events[|events| - 1]);
    }
  }

  // ----- linearizability -----

  predicate DecidedBy(log: seq<Atom>, d: nat, i: nat, granted: bool) {
    d < |log| && log[d].call == i && Decisive(log[d].act) && log[d].act.Debit? == granted
  }

  /** Every run is a run of an atomic bucket: the log is a legal history of creations,
      clamps, conditional debits and saturating credits that leaves exactly the shared
      balances; a call that returned took its decision at one point after its invocation,
      with the answer it returned; and a call that has not returned has decided nothing.
      When the clamp of a reservation and its decision are one point is the subject of
      AtomicRuns and ClampedReservation below. */
  lemma Linearizable(events: seq<Event>)
    requires ValidEvents(events)
    ensures
      var s := Exec(INIT, events);
      && Contents(s) == Replay(s.log) && Legal(s.log)
      && (forall i :: 0 <= i < |s.calls| && s.calls[i].pc.Returned? ==>
            exists d :: s.calls[i].invokedAt <= d < |s.log| && DecidedBy(s.log, d, i, s.calls[i].pc.granted))
      && (forall d, d' :: 0 <= d < d' < |s.log| && Decisive(s.log[d].act) && Decisive(s.log[d'].act) ==>
            s.log[d].call != s.log[d'].call)
      && (forall d :: 0 <= d < |s.log| && Decisive(s.log[d].act) ==>
            s.log[d].call < |s.calls| && s.calls[s.log[d].call].pc.Returned?)
  {
    var s := Exec(INIT, events);
    ReachableInv(events);
    forall i | 0 <= i < |s.calls| && s.calls[i].pc.Returned?
      ensures exists d :: s.calls[i].invokedAt <= d < |s.log| && DecidedBy(s.log, d, i, s.calls[i].pc.granted)
    {
      assert CallOk(s, i);
      assert DecidedBy(s.log, s.calls[i].decidedAt.value, i, s.calls[i].pc.granted);
    }
    forall d | 0 <= d < |s.log| && Decisive(s.log[d].act)
      ensures s.log[d].call < |s.calls| && s.calls[s.log[d].call].pc.Returned?
    {
      assert CallOk(s, s.log[d].call);
    }
  }

  /** `t` continues `s`: the log grows, and calls that returned keep their decision. */
  predicate Continues(s: State, t: State) {
    && s.log <= t.log && |s.calls| <= |t.calls|
    && (forall i :: 0 <= i < |s.calls| && s.calls[i].pc.Returned? ==> t.calls[i] == s.calls[i])
    && (forall i :: 0 <= i < |s.calls| ==> t.calls[i].invokedAt == s.calls[i].invokedAt)
    && (forall i :: |s.calls| <= i < |t.calls| ==> t.calls[i].invokedAt >= |s.log|)
  }

  lemma ApplyContinues(s: State, e: Event)
    requires Inv(s)
    ensures Continues(s, Apply(s, e))
  {
    hide Inv, Step;
    if e.Run? && e.call < |s.calls| {
      StepIsStepped(s, e.call);
    }
  }

  lemma {:induction false} RunContinues(s: State, events: seq<Event>)
    requires Inv(s) && ValidEvents(events)
    ensures Inv(Exec(s, events)) && Continues(s, Exec(s, events))
  {
    if events != [] {
      var mid, e := Exec(s, events[..|events| - 1]), events[|events| - 1];
      RunContinues(s, events[..|events| - 1]);
      ApplyKeepsInv(mid, e);
      ApplyContinues(mid, e);
    }
  }

  /** Real-time order: when one call returned before another was invoked, it also took
      effect before it. */
  lemma RealTimeOrder(first: seq<Event>, later: seq<Event>, i: nat, j: nat)
    requires ValidEvents(first) && ValidEvents(later)
    requires i < |Exec(INIT, first).calls| && Exec(INIT, first).calls[i].pc.Returned?
    requires |Exec(INIT, first).calls| <= j < |Exec(Exec(INIT, first), later).calls|
    requires Exec(Exec(INIT, first), later).calls[j].pc.Returned?
    ensures
      var t := Exec(Exec(INIT, first), later);
      && t.calls[i].decidedAt.Some? && t.calls[j].decidedAt.Some?
      && t.calls[i].decidedAt.value < t.calls[j].decidedAt.value
  {
    ReachableInv(first);
    var s := Exec(INIT, first);
    RunContinues(s, later);
    var t := Exec(s, later);
    assert CallOk(s, i) && CallOk(t, j);
  }

  /** A swap fails only because another call changed that balance since this one read it. */
  lemma FailedSwapMeansForeignWrite(events: seq<Event>, i: nat)
    requires ValidEvents(events)
    requires i < |Exec(INIT, events).calls| && HasSeen(Exec(INIT, events).calls[i].pc)
    requires
      var s := Exec(INIT, events);
      CellAt(s, s.calls[i].pc.cell) != s.calls[i].pc.seen
    ensures
      var s := Exec(INIT, events);
      exists j :: s.calls[i].pc.at <= j < |s.log|
        && s.log[j].call != i && Writes(s.log[j].act) && s.log[j].op.key == s.calls[i].op.key
  {
    ReachableInv(events);
    var s := Exec(INIT, events);
    assert CallOk(s, i);
    var j :| s.calls[i].pc.at <= j < |s.log| && Writes(s.log[j].act) && s.log[j].op.key == s.calls[i].op.key;
    assert s.log[j].call != i;
  }

  /** Racing lookups of one key end with the same entry. */
  lemma RacingLookupsAgree(events: seq<Event>, i: nat, j: nat)
    requires ValidEvents(events)
    requires i < |Exec(INIT, events).calls| && j < |Exec(INIT, events).calls|
    requires
      var s := Exec(INIT, events);
      HasCell(s.calls[i].pc) && HasCell(s.calls[j].pc)
    ensures
      var s := Exec(INIT, events);
      s.calls[i].op.key == s.calls[j].op.key <==> s.calls[i].pc.cell == s.calls[j].pc.cell
  {
    ReachableInv(events);
    var s := Exec(INIT, events);
    assert CallOk(s, i) && CallOk(s, j);
  }

  /** No step touches another key's bucket. */
  lemma KeysAreIsolated(events: seq<Event>, i: nat, key: string)
    requires ValidEvents(events)
    requires i < |Exec(INIT, events).calls| && Exec(INIT, events).calls[i].op.key != key
    ensures
      var s := Exec(INIT, events);
      var t := Step(s, i);
      (key in Contents(t) <==> key in Contents(s)) && (key in Contents(s) ==> Contents(t)[key] == Contents(s)[key])
  {
    ReachableInv(events);
    var s := Exec(INIT, events);
    StepIsStepped(s, i);
    assert CallOk(s, i);
  }

  // ----- reservations that clamp -----

  predicate ValidLog(log: seq<Atom>) {
    forall i :: 0 <= i < |log| ==> ValidOp(log[i].op)
  }

  /** A single-point operation on a balance: the balance it leaves and its answer. */
  function AtOnce(balance: int, op: Op): (int, bool) {
    if op.ReserveOp? then ReserveOn(balance, op.capacity, op.amount)
    else (CreditOn(balance, op.amount, op.capacity), false)
  }

  /** The history without its clamps: creations, and each decision as one single-point
      operation at the place where it was taken. A success skipped on a missing key leaves
      it missing. */
  function Unclamped(log: seq<Atom>): Balances {
    if log == [] then map[]
    else
      var m, a := Unclamped(log[..|log| - 1]), log[|log| - 1];
      match a.act
      case Create => m[a.op.key := a.op.capacity]
      case ClampTo => m
      case Skip => m
      case _ => m[a.op.key := AtOnce(BalanceOf(m, a.op.key, a.op.capacity), a.op).0]
  }

  /** The lowest capacity a reservation has clamped the key to since the last decision on it. */
  function OpenClamp(log: seq<Atom>, key: string): Option<int> {
    if log == [] then None
    else
      var before, a := OpenClamp(log[..|log| - 1], key), log[|log| - 1];
      if a.op.key != key || a.act.Create? then before
      else if !a.act.ClampTo? then None
      else if before.Some? && before.value < a.op.capacity then before
      else Some(a.op.capacity)
  }

  /** The decision comes out the same with and without the open clamp: a reservation carries
      no greater capacity than the clamp, a credit fills up to its own capacity anyway. */
  predicate Absorbs(op: Op, clamp: Option<int>) {
    clamp.Some? ==> op.capacity <= clamp.value + if op.ReserveOp? then 0 else op.amount
  }

  predicate AllAbsorbed(log: seq<Atom>) {
    forall d :: 0 <= d < |log| && Decisive(log[d].act) ==> Absorbs(log[d].op, OpenClamp(log[..d], log[d].op.key))
  }

  /** The decision at `d` left the balance and gave the answer of a single-point operation
      after the decisions before it, taken in the order of the log and without clamps. */
  predicate Explained(log: seq<Atom>, d: nat)
    requires d < |log|
  {
    var a, key := log[d], log[d].op.key;
    if a.act.Skip? then key !in Unclamped(log[..d]) && key !in Replay(log[..d + 1])
    else
      && key in Replay(log[..d + 1])
      && (Replay(log[..d + 1])[key], a.act.Debit?) == AtOnce(BalanceOf(Unclamped(log[..d]), key, a.op.capacity), a.op)
  }

  /** Every decision is a single-point operation on the balance it finds; what can come
      between a reservation's clamp and its decision is the rest of the story. */
  lemma DecisionIsAtomic(log: seq<Atom>, a: Atom)
    requires Legal(log + [a]) && Decisive(a.act) && !a.act.Skip? && ValidOp(a.op)
    ensures a.op.key in Replay(log) && a.op.key in Replay(log + [a])
    ensures (Replay(log + [a])[a.op.key], a.act.Debit?) == AtOnce(Replay(log)[a.op.key], a.op)
  {
    ReplayAppend(log, a);
  }

  function Lower(balance: int, clamp: Option<int>): int {
    if clamp.Some? then Min(balance, clamp.value) else balance
  }

  /** The balances are those of the history without clamps, lowered to the open ones. */
  predicate Tracks(log: seq<Atom>, key: string) {
    && (key in Unclamped(log) <==> key in Replay(log))
    && (key in Replay(log) ==> Replay(log)[key] == Lower(Unclamped(log)[key], OpenClamp(log, key)))
    && (OpenClamp(log, key).Some? ==> key in Replay(log) && OpenClamp(log, key).value < Unclamped(log)[key])
  }

  lemma AbsorbedPrefix(log: seq<Atom>)
    requires log != [] && AllAbsorbed(log)
    ensures AllAbsorbed(log[..|log| - 1])
    ensures Decisive(log[|log| - 1].act) ==>
      Absorbs(log[|log| - 1].op, OpenClamp(log[..|log| - 1], log[|log| - 1].op.key))
  {
    var prefix := log[..|log| - 1];
    forall d | 0 <= d < |prefix| && Decisive(prefix[d].act)
      ensures Absorbs(prefix[d].op, OpenClamp(prefix[..d], prefix[d].op.key))
    {
      assert prefix[d] == log[d] && prefix[..d] == log[..d];
    }
  }

  lemma TracksNext(prefix: seq<Atom>, a: Atom, key: string)
    requires Legal(prefix + [a]) && ValidOp(a.op) && Tracks(prefix, key)
    requires a.op.key == key && Decisive(a.act) ==> Absorbs(a.op, OpenClamp(prefix, key))
    ensures Tracks(prefix + [a], key)
  {
    assert (prefix + [a])[..|prefix|] == prefix;
    ReplayAppend(prefix, a);
  }

  lemma {:induction false} AbsorbedTracks(log: seq<Atom>, key: string)
    requires Legal(log) && ValidLog(log) && AllAbsorbed(log)
    ensures Tracks(log, key)
  {
    if log != [] {
      var prefix, a := log[..|log| - 1], log[|log| - 1];
      AbsorbedPrefix(log);
      AbsorbedTracks(prefix, key);
      assert log == prefix + [a];
      TracksNext(prefix, a, key);
    }
  }

  lemma NoClampIsAbsorbed(op: Op)
    ensures Absorbs(op, None)
  {
  }

  lemma AbsorbsExactly(balance: int, clamp: Option<int>, op: Op)
    requires ValidOp(op) && (clamp.Some? ==> clamp.value < balance)
    ensures AtOnce(Lower(balance, clamp), op) == AtOnce(balance, op) <==> Absorbs(op, clamp)
  {
  }

  /** At the next decision after a history whose clamps were all absorbed, the balance and
      the answer are those of a single-point operation exactly when it absorbs the clamp
      open on its key. */
  lemma NextExplained(prefix: seq<Atom>, a: Atom)
    requires Legal(prefix + [a]) && ValidOp(a.op) && Decisive(a.act) && Tracks(prefix, a.op.key)
    ensures Explained(prefix + [a], |prefix|) <==> Absorbs(a.op, OpenClamp(prefix, a.op.key))
  {
    hide Replay, Unclamped, OpenClamp, Legal, AtOnce, Absorbs, Lower, ValidOp;
    var log, key, clamp := prefix + [a], a.op.key, OpenClamp(prefix, a.op.key);
    assert log[..|prefix|] == prefix && log[..|prefix| + 1] == log;
    if a.act.Skip? {
      ReplayAppend(prefix, a);
      NoClampIsAbsorbed(a.op);
    } else {
      DecisionIsAtomic(prefix, a);
      AbsorbsExactly(Unclamped(prefix)[key], clamp, a.op);
    }
  }

  lemma ExplainedInPrefix(log: seq<Atom>, n: nat, d: nat)
    requires d < n <= |log|
    ensures Explained(log[..n], d) == Explained(log, d)
  {
    assert log[..n][d] == log[d] && log[..n][..d] == log[..d] && log[..n][..d + 1] == log[..d + 1];
  }

  predicate AllExplained(log: seq<Atom>) {
    forall d :: 0 <= d < |log| && Decisive(log[d].act) ==> Explained(log, d)
  }

  lemma AllExplainedSplits(log: seq<Atom>)
    requires log != []
    ensures AllExplained(log) <==>
      AllExplained(log[..|log| - 1]) && (Decisive(log[|log| - 1].act) ==> Explained(log, |log| - 1))
  {
    var n := |log| - 1;
    forall d | 0 <= d < n
      ensures Explained(log[..n], d) == Explained(log, d) && log[..n][d] == log[d]
    {
      ExplainedInPrefix(log, n, d);
    }
    hide Explained;
  }

  lemma AllAbsorbedSplits(log: seq<Atom>)
    requires log != []
    ensures AllAbsorbed(log) <==>
      && AllAbsorbed(log[..|log| - 1])
      && (Decisive(log[|log| - 1].act) ==>
            Absorbs(log[|log| - 1].op, OpenClamp(log[..|log| - 1], log[|log| - 1].op.key)))
  {
    var prefix := log[..|log| - 1];
    assert forall d :: 0 <= d < |prefix| ==> prefix[d] == log[d] && prefix[..d] == log[..d];
    hide Absorbs, OpenClamp;
  }

  /** In the order in which they were taken, the decisions of a history are single-point
      operations exactly when every open clamp is absorbed by the next decision on its key. */
  lemma {:induction false} AtomicExactlyWhenAbsorbed(log: seq<Atom>)
    requires Legal(log) && ValidLog(log)
    ensures AllExplained(log) <==> AllAbsorbed(log)
  {
    if log != [] {
      var prefix, a := log[..|log| - 1], log[|log| - 1];
      AtomicExactlyWhenAbsorbed(prefix);
      AllExplainedSplits(log);
      AllAbsorbedSplits(log);
      if AllAbsorbed(prefix) && Decisive(a.act) {
        AbsorbedTracks(prefix, a.op.key);
        assert log == prefix + [a];
        NextExplained(prefix, a);
      }
      hide AllExplained, AllAbsorbed, Explained, Absorbs, OpenClamp;
    }
  }

  lemma {:induction false} ClampedTo(log: seq<Atom>, key: string, capacities: string -> int)
    requires forall i :: 0 <= i < |log| ==> log[i].op.capacity == capacities(log[i].op.key)
    ensures OpenClamp(log, key).Some? ==> OpenClamp(log, key).value == capacities(key)
  {
    if log != [] {
      ClampedTo(log[..|log| - 1], key, capacities);
    }
  }

  /** With one capacity for each key every clamp is absorbed. */
  lemma OneCapacityAbsorbs(log: seq<Atom>, capacities: string -> int)
    requires ValidLog(log) && forall i :: 0 <= i < |log| ==> log[i].op.capacity == capacities(log[i].op.key)
    ensures AllAbsorbed(log)
  {
    forall d | 0 <= d < |log| && Decisive(log[d].act)
      ensures Absorbs(log[d].op, OpenClamp(log[..d], log[d].op.key))
    {
      ClampedTo(log[..d], log[d].op.key, capacities);
    }
  }

  lemma InvValidLog(s: State)
    requires Inv(s)
    ensures ValidLog(s.log)
  {
  }

  /** In the order in which they were taken, the decisions of a run are single-point operations
      exactly when it absorbs its clamps. Another order may still explain a run that does not:
      AnotherOrderCanExplain has one, and AtomicExactlyWithOneCapacity is about all orders. */
  lemma AtomicRuns(events: seq<Event>)
    requires ValidEvents(events)
    ensures
      var log := Exec(INIT, events).log;
      AllExplained(log) <==> AllAbsorbed(log)
  {
    ReachableInv(events);
    InvValidLog(Exec(INIT, events));
    AtomicExactlyWhenAbsorbed(Exec(INIT, events).log);
  }

  /** Every operation in a run was invoked by its schedule. */
  lemma {:induction false} OpsWereInvoked(events: seq<Event>)
    requires ValidEvents(events)
    ensures forall i :: 0 <= i < |Exec(INIT, events).calls| ==> Invoke(Exec(INIT, events).calls[i].op) in events
    ensures forall j :: 0 <= j < |Exec(INIT, events).log| ==> Invoke(Exec(INIT, events).log[j].op) in events
  {
    var s := Exec(INIT, events);
    if events != [] {
      var mid, e := Exec(INIT, events[..|events| - 1]), events[|events| - 1];
      OpsWereInvoked(events[..|events| - 1]);
      ReachableInv(events[..|events| - 1]);
      if e.Run? && e.call < |mid.calls| {
        StepIsStepped(mid, e.call);
      }
      forall i | 0 <= i < |s.calls|
        ensures Invoke(s.calls[i].op) in events
      {
        if i < |mid.calls| {
          assert s.calls[i].op == mid.calls[i].op;
        } else {
          assert events[|events| - 1] == Invoke(s.calls[i].op);
        }
      }
    }
    ReachableInv(events);
    forall j | 0 <= j < |s.log|
      ensures Invoke(s.log[j].op) in events
    {
      assert s.log[j].op == s.calls[s.log[j].call].op;
    }
  }

  /** In particular every run is one in which each key has one capacity. */
  lemma OneCapacityIsAtomic(events: seq<Event>, capacities: string -> int)
    requires ValidEvents(events)
    requires forall i :: 0 <= i < |events| && events[i].Invoke? ==>
      events[i].op.capacity == capacities(events[i].op.key)
    ensures AllAbsorbed(Exec(INIT, events).log) && AllExplained(Exec(INIT, events).log)
  {
    var log := Exec(INIT, events).log;
    OpsWereInvoked(events);
    ReachableInv(events);
    InvValidLog(Exec(INIT, events));
    forall i | 0 <= i < |log|
      ensures log[i].op.capacity == capacities(log[i].op.key)
    {
      assert Invoke(log[i].op) in events;
    }
    OneCapacityAbsorbs(log, capacities);
    AtomicRuns(events);
    hide Exec, AllAbsorbed, AllExplained, Inv;
  }

  /** No other call writes the key between `c` and `d`. */
  predicate NoForeignWrite(log: seq<Atom>, c: nat, d: nat) {
    forall j :: c < j < d && j < |log| && log[j].op.key == log[c].op.key && Writes(log[j].act) ==>
      log[j].call == log[c].call
  }

  lemma {:induction false} LegalPrefix(log: seq<Atom>, n: nat)
    requires Legal(log) && n <= |log|
    ensures Legal(log[..n])
  {
    if n < |log| {
      LegalPrefix(log[..|log| - 1], n);
      assert log[..|log| - 1][..n] == log[..n];
    } else {
      assert log[..n] == log;
    }
  }

  lemma {:induction false} StaysClamped(s: State, c: nat, d: nat, j: nat)
    requires Inv(s) && c < j <= d < |s.log| && s.log[c].act.ClampTo?
    requires s.log[d].call == s.log[c].call && Decisive(s.log[d].act) && NoForeignWrite(s.log, c, d)
    ensures s.log[c].op.key in Replay(s.log[..j]) && Replay(s.log[..j])[s.log[c].op.key] == s.log[c].op.capacity
  {
    LegalPrefix(s.log, j);
    assert s.log[..j] == s.log[..j - 1] + [s.log[j - 1]];
    ReplayAppend(s.log[..j - 1], s.log[j - 1]);
    if c + 1 < j {
      StaysClamped(s, c, d, j - 1);
    }
  }

  lemma LogEntry(s: State, j: nat)
    requires Inv(s) && j < |s.log|
    ensures s.log[..j + 1] == s.log[..j] + [s.log[j]] && Legal(s.log[..j + 1]) && Enabled(Replay(s.log[..j]), s.log[j])
    ensures s.log[j].call < |s.calls| && s.log[j].op == s.calls[s.log[j].call].op && ValidOp(s.log[j].op)
  {
    LegalPrefix(s.log, j + 1);
    assert s.log[..j + 1] == s.log[..j] + [s.log[j]];
    ReplayAppend(s.log[..j], s.log[j]);
  }

  lemma ClampAndDecision(s: State, c: nat, d: nat)
    requires Inv(s) && c < d < |s.log|
    requires s.log[c].act.ClampTo? && s.log[d].call == s.log[c].call && Decisive(s.log[d].act)
    ensures
      var op := s.log[c].op;
      && op == s.log[d].op
      && op.key in Replay(s.log[..c]) && op.key in Replay(s.log[..d]) && op.key in Replay(s.log[..d + 1])
      && ((Replay(s.log[..d + 1])[op.key], s.log[d].act.Debit?) == AtOnce(Replay(s.log[..c])[op.key], op)
          <==> Replay(s.log[..d])[op.key] == op.capacity)
      && (NoForeignWrite(s.log, c, d) ==> Replay(s.log[..d])[op.key] == op.capacity)
  {
    LogEntry(s, c);
    LogEntry(s, d);
    var op := s.log[c].op;
    assert op == s.log[d].op && ValidOp(op) && op.ReserveOp?;
    if NoForeignWrite(s.log, c, d) {
      StaysClamped(s, c, d, d);
    }
    DecisionIsAtomic(s.log[..d], s.log[d]);
    hide Inv, Replay, Legal, NoForeignWrite;
  }

  /** A reservation that clamped before it decided is, clamp and all, one single-point
      operation on the balance it clamped exactly when the key still holds its capacity at
      the decision; and it does when no other call wrote the key in between. */
  lemma ClampedReservation(events: seq<Event>, c: nat, d: nat)
    requires ValidEvents(events) && c < d < |Exec(INIT, events).log|
    requires
      var log := Exec(INIT, events).log;
      log[c].act.ClampTo? && log[d].call == log[c].call && Decisive(log[d].act)
    ensures
      var log := Exec(INIT, events).log;
      var op := log[c].op;
      && op == log[d].op
      && op.key in Replay(log[..c]) && op.key in Replay(log[..d]) && op.key in Replay(log[..d + 1])
      && ((Replay(log[..d + 1])[op.key], log[d].act.Debit?) == AtOnce(Replay(log[..c])[op.key], op)
          <==> Replay(log[..d])[op.key] == op.capacity)
      && (NoForeignWrite(log, c, d) ==> Replay(log[..d])[op.key] == op.capacity)
  {
    ReachableInv(events);
    ClampAndDecision(Exec(INIT, events), c, d);
  }

  // ----- a run that is no history of single-point operations -----

  const SMALL := ReserveOp("k", 5, 5)
  const LARGE := ReserveOp("k", 10, 6)
  const MIDDLE := ReserveOp("k", 10, 5)

  /** The first call creates a full bucket; the second clamps it and has not yet debited. */
  function Opening(big: Op, small: Op): seq<Event> {
    [Invoke(big), Run(0), Run(0), Invoke(small), Run(1), Run(1), Run(1)]
  }

  predicate Mixed(big: Op, small: Op) {
    && big.ReserveOp? && small.ReserveOp? && big.key == small.key
    && 0 < small.amount <= small.capacity < big.capacity
  }

  const AFTER_OPENING: seq<Event> := [Run(0), Invoke(MIDDLE), Run(2), Run(2), Run(2), Run(1), Run(1)]

  /** A full bucket of 10 is clamped to 5 for a call that goes on only after two others. */
  const SPLIT: seq<Event> :=
    Opening(LARGE, SMALL) + AFTER_OPENING

  /** As before, but the call that clamped goes on right after the denial. */
  const OVERLAP: seq<Event> := Opening(LARGE, SMALL) + [Run(0), Run(1)]

  lemma {:induction false} ExecFront(s: State, e: Event, rest: seq<Event>)
    ensures Exec(s, [e] + rest) == Exec(Apply(s, e), rest)
  {
    var all := [e] + rest;
    if rest == [] {
      assert all[..0] == [];
    } else {
      assert all[..|all| - 1] == [e] + rest[..|rest| - 1];
      ExecFront(s, e, rest[..|rest| - 1]);
    }
  }

  /** The calls, run one after another in this order as single-point operations on the map of
      buckets, give the answers they gave. */
  predicate Serially(calls: seq<Call>, order: seq<nat>, m: Balances) {
    order == [] ||
    (&& order[0] < |calls|
     && var op := calls[order[0]].op;
        var (balance, granted) := AtOnce(BalanceOf(m, op.key, op.capacity), op);
        calls[order[0]].pc == Returned(granted) && Serially(calls, order[1..], m[op.key := balance]))
  }

  predicate IsOrder(order: seq<nat>, n: nat) {
    |order| == n && (forall i :: 0 <= i < n ==> order[i] < n) && forall i, j :: 0 <= i < j < n ==> order[i] != order[j]
  }

  predicate DenyDenyGrant(calls: seq<Call>) {
    && |calls| == 3
    && calls[0].op == LARGE && calls[0].pc == Returned(false)
    && calls[1].op == SMALL && calls[1].pc == Returned(false)
    && calls[2].op == MIDDLE && calls[2].pc == Returned(true)
  }

  lemma NoSerialTail(calls: seq<Call>, rest: seq<nat>, m: Balances)
    requires DenyDenyGrant(calls) && (rest == [0, 1] || rest == [1, 0]) && m == m["k" := 5]
    ensures !Serially(calls, rest, m)
  {
    assert [0, 1][1..] == [1] && [1, 0][1..] == [0];
  }

  lemma NoSerialOrder(calls: seq<Call>, order: seq<nat>, m: Balances)
    requires DenyDenyGrant(calls) && IsOrder(order, 3) && (m == map[] || m == map["k" := 10])
    ensures !Serially(calls, order, m)
  {
    if order[0] == 2 {
      assert order[1..] == [order[1], order[2]];
      NoSerialTail(calls, order[1..], m["k" := 5]);
    }
  }

  lemma OneEvent(s: State, events: seq<Event>)
    requires events != []
    ensures Exec(s, events) == Exec(Apply(s, events[0]), events[1..])
  {
    assert events == [events[0]] + events[1..];
    ExecFront(s, events[0], events[1..]);
  }

  function Clamped(big: Op, small: Op): State {
    State([small.capacity], map[big.key := 0],
          [Call(big, Load(0), 0, None), Call(small, DebitCas(0, small.capacity, 2), 1, None)],
          [Atom(0, big, Create), Atom(1, small, ClampTo)])
  }

  function Created(big: Op): State {
    State([big.capacity], map[big.key := 0], [Call(big, Load(0), 0, None)], [Atom(0, big, Create)])
  }

  lemma OpeningCreates(big: Op, small: Op)
    requires Mixed(big, small)
    ensures Exec(INIT, Opening(big, small)) == Exec(Created(big), Opening(big, small)[3..])
  {
    hide Exec;
    var e := Opening(big, small);
    OneEvent(INIT, e);
    var s1 := Apply(INIT, e[0]);
    assert s1.calls == [Call(big, EntryLoad, 0, None)];
    OneEvent(s1, e[1..]);
    var s2 := Apply(s1, e[1]);
    assert s2.calls == [Call(big, EntryStore, 0, None)];
    OneEvent(s2, e[2..]);
    assert Apply(s2, e[2]) == Created(big);
  }

  lemma NoEvent(s: State)
    ensures Exec(s, []) == s
  {
  }

  lemma OpeningClamps(big: Op, small: Op)
    requires Mixed(big, small)
    ensures Exec(Created(big), Opening(big, small)[3..]) == Clamped(big, small)
  {
    hide Exec;
    var e, s3 := Opening(big, small), Created(big);
    OneEvent(s3, e[3..]);
    var s4 := Apply(s3, e[3]);
    OneEvent(s4, e[4..]);
    var s5 := Apply(s4, e[4]);
    assert s5.calls == s3.calls + [Call(small, Load(0), 1, None)];
    OneEvent(s5, e[5..]);
    var s6 := Apply(s5, e[5]);
    assert s6.calls == s3.calls + [Call(small, ClampCas(0, big.capacity, 1), 1, None)];
    OneEvent(s6, e[6..]);
    assert Apply(s6, e[6]) == Clamped(big, small);
    NoEvent(Clamped(big, small));
  }

  lemma {:induction false} ExecConcat(s: State, first: seq<Event>, later: seq<Event>)
    ensures Exec(s, first + later) == Exec(Exec(s, first), later)
  {
    hide Apply;
    if later == [] {
      assert first + later == first;
    } else {
      assert (first + later)[..|first + later| - 1] == first + later[..|later| - 1];
      ExecConcat(s, first, later[..|later| - 1]);
    }
  }

  /** What happens after the opening. */
  lemma Opened(big: Op, small: Op, later: seq<Event>)
    requires Mixed(big, small)
    ensures Exec(INIT, Opening(big, small) + later) == Exec(Clamped(big, small), later)
  {
    OpeningCreates(big, small);
    OpeningClamps(big, small);
    ExecConcat(INIT, Opening(big, small), later);
  }

  function BothDecided(): State {
    State([0], map["k" := 0],
          [Call(LARGE, Returned(false), 0, Some(2)), Call(SMALL, DebitCas(0, 5, 2), 1, None),
           Call(MIDDLE, Returned(true), 3, Some(3))],
          [Atom(0, LARGE, Create), Atom(1, SMALL, ClampTo), Atom(0, LARGE, Deny), Atom(2, MIDDLE, Debit)])
  }

  /** The others decide. */
  lemma SplitRunDecides()
    ensures Exec(Clamped(LARGE, SMALL), AFTER_OPENING) == Exec(BothDecided(), AFTER_OPENING[5..])
  {
    hide Exec;
    var e, s7 := AFTER_OPENING, Clamped(LARGE, SMALL);
    OneEvent(s7, e);
    var s8 := Apply(s7, e[0]);
    assert s8.calls == [Call(LARGE, Returned(false), 0, Some(2)), s7.calls[1]];
    OneEvent(s8, e[1..]);
    var s9 := Apply(s8, e[1]);
    OneEvent(s9, e[2..]);
    var s10 := Apply(s9, e[2]);
    assert s10.calls == s8.calls + [Call(MIDDLE, Load(0), 3, None)];
    OneEvent(s10, e[3..]);
    var s11 := Apply(s10, e[3]);
    assert s11.calls == s8.calls + [Call(MIDDLE, DebitCas(0, 5, 3), 3, None)];
    OneEvent(s11, e[4..]);
    assert Apply(s11, e[4]) == BothDecided();
  }

  /** And then the call that clamped. */
  lemma SplitRun()
    ensures DenyDenyGrant(Exec(INIT, SPLIT).calls)
  {
    Opened(LARGE, SMALL, AFTER_OPENING);
    SplitRunDecides();
    hide Exec;
    var e, s12 := AFTER_OPENING, BothDecided();
    OneEvent(s12, e[5..]);
    var s13 := Apply(s12, e[5]);
    assert s13.calls[1] == Call(SMALL, Load(0), 1, None);
    OneEvent(s13, e[6..]);
    NoEvent(Apply(s13, e[6]));
  }

  /** With mixed capacities a reservation does not act at one point: in this run all three
      reservations return, and no order of them as single-point operations, on a fresh map
      or on a full bucket, gives their answers. */
  lemma ClampSplitsReservation(order: seq<nat>)
    requires IsOrder(order, 3)
    ensures ValidEvents(SPLIT) && DenyDenyGrant(Exec(INIT, SPLIT).calls)
    ensures !Serially(Exec(INIT, SPLIT).calls, order, map[])
    ensures !Serially(Exec(INIT, SPLIT).calls, order, map["k" := 10])
  {
    SplitRun();
    hide Exec, Serially;
    NoSerialOrder(Exec(INIT, SPLIT).calls, order, map[]);
    NoSerialOrder(Exec(INIT, SPLIT).calls, order, map["k" := 10]);
  }

  lemma OverlapRun()
    ensures
      var s := Exec(INIT, OVERLAP);
      && s.calls == [Call(LARGE, Returned(false), 0, Some(2)), Call(SMALL, Returned(true), 1, Some(3))]
      && s.log == [Atom(0, LARGE, Create), Atom(1, SMALL, ClampTo), Atom(0, LARGE, Deny), Atom(1, SMALL, Debit)]
  {
    var later := [Run(0), Run(1)];
    Opened(LARGE, SMALL, later);
    hide Exec;
    var s7 := Clamped(LARGE, SMALL);
    OneEvent(s7, later);
    var s8 := Apply(s7, later[0]);
    assert s8.calls == [Call(LARGE, Returned(false), 0, Some(2)), s7.calls[1]];
    OneEvent(s8, later[1..]);
    NoEvent(Apply(s8, later[1]));
  }

  lemma OverlapClamp()
    ensures OpenClamp([Atom(0, LARGE, Create), Atom(1, SMALL, ClampTo)], "k") == Some(5)
  {
    var first := [Atom(0, LARGE, Create)];
    var both := first + [Atom(1, SMALL, ClampTo)];
    assert first[..0] == [] && both[..1] == first;
    assert OpenClamp(first, "k") == None;
    assert both == [Atom(0, LARGE, Create), Atom(1, SMALL, ClampTo)];
  }

  lemma DenyLast(calls: seq<Call>, m: Balances)
    requires |calls| == 2 && (m == map[] || m == map["k" := 10])
    requires calls[0].op == LARGE && calls[0].pc == Returned(false)
    requires calls[1].op == SMALL && calls[1].pc == Returned(true)
    ensures Serially(calls, [1, 0], m)
  {
    var after := m["k" := 0];
    assert [1, 0][1..] == [0] && [0][1..] == [];
    assert Serially(calls, [0], after);
  }

  /** A run that does not absorb its clamp, and is explained by another order than that of
      the decisions: the denied reservation goes last. */
  lemma AnotherOrderCanExplain()
    ensures !AllAbsorbed(Exec(INIT, OVERLAP).log) && !AllExplained(Exec(INIT, OVERLAP).log)
    ensures Serially(Exec(INIT, OVERLAP).calls, [1, 0], map[])
    ensures Serially(Exec(INIT, OVERLAP).calls, [1, 0], map["k" := 10])
  {
    OverlapRun();
    var s := Exec(INIT, OVERLAP);
    assert ValidEvents(OVERLAP);
    AtomicRuns(OVERLAP);
    OverlapClamp();
    hide Exec, OpenClamp, AllExplained, Serially;
    assert s.log[..2] == [Atom(0, LARGE, Create), Atom(1, SMALL, ClampTo)];
    assert !Absorbs(s.log[2].op, OpenClamp(s.log[..2], s.log[2].op.key));
    DenyLast(s.calls, map[]);
    DenyLast(s.calls, map["k" := 10]);
  }

  // ----- a fixed capacity: the bucket is a total map that starts full -----

  predicate FixedCapacity(events: seq<Event>, key: string, capacity: int) {
    forall i :: 0 <= i < |events| && events[i].Invoke? && events[i].op.key == key ==> events[i].op.capacity == capacity
  }

  predicate LogFixed(log: seq<Atom>, key: string, capacity: int) {
    forall i :: 0 <= i < |log| ==> ValidOp(log[i].op) && (log[i].op.key == key ==> log[i].op.capacity == capacity)
  }

  /** Runs the decided calls one after another on a total map whose keys all start at
      `capacity`; lazy creation and clamping do not exist at this level. */
  function AtomicBalance(log: seq<Atom>, key: string, capacity: int): int {
    if log == [] then capacity
    else
      var before, a := AtomicBalance(log[..|log| - 1], key, capacity), log[|log| - 1];
      if a.op.key != key || !Decisive(a.act) then before
      else if a.op.ReserveOp? then ReserveOn(before, capacity, a.op.amount).0
      else CreditOn(before, a.op.amount, capacity)
  }

  lemma {:induction false} LegalIsAtomic(log: seq<Atom>, key: string, capacity: int)
    requires Legal(log) && LogFixed(log, key, capacity)
    ensures BalanceOf(Replay(log), key, capacity) == AtomicBalance(log, key, capacity)
    ensures AtomicBalance(log, key, capacity) <= capacity && (0 < capacity ==> 0 <= AtomicBalance(log, key, capacity))
    ensures
      log != [] && log[|log| - 1].op.ReserveOp? && log[|log| - 1].op.key == key && Decisive(log[|log| - 1].act) ==>
      var a := log[|log| - 1];
      a.act.Debit? == ReserveOn(AtomicBalance(log[..|log| - 1], key, capacity), capacity, a.op.amount).1
  {
    if log != [] {
      LegalIsAtomic(log[..|log| - 1], key, capacity);
    }
  }

  lemma RunLogFixed(events: seq<Event>, key: string, capacity: int)
    requires ValidEvents(events) && FixedCapacity(events, key, capacity)
    ensures
      var s := Exec(INIT, events);
      LogFixed(s.log, key, capacity) && Legal(s.log) && Contents(s) == Replay(s.log)
  {
    ReachableInv(events);
    OpsWereInvoked(events);
    InvValidLog(Exec(INIT, events));
    hide Exec, EntriesOk, CallOk, LogOk, Contents, Replay, Legal;
  }

  /** Where all calls to a key carry one capacity, whatever the others carry, its bucket is
      that of a total atomic map: touched or not, it has the balance the decided calls leave
      on a bucket that starts full, and every reservation got the answer that bucket gives.
      In particular a success recorded on a missing key, which the code skips, is the
      saturated credit of a full bucket. */
  lemma RefinesTotalMap(events: seq<Event>, key: string, capacity: int, d: nat)
    requires ValidEvents(events) && FixedCapacity(events, key, capacity)
    ensures
      var s := Exec(INIT, events);
      BalanceOf(Contents(s), key, capacity) == AtomicBalance(s.log, key, capacity)
    ensures
      var s := Exec(INIT, events);
      d < |s.log| && s.log[d].op.ReserveOp? && s.log[d].op.key == key && Decisive(s.log[d].act) ==>
        s.log[d].act.Debit? ==
          ReserveOn(AtomicBalance(s.log[..d], key, capacity), capacity, s.log[d].op.amount).1
  {
    var s := Exec(INIT, events);
    RunLogFixed(events, key, capacity);
    LegalIsAtomic(s.log, key, capacity);
    if d < |s.log| {
      LegalPrefix(s.log, d + 1);
      LegalIsAtomic(s.log[..d + 1], key, capacity);
      assert s.log[..d + 1][..d] == s.log[..d];
    }
    hide Exec, Contents, Replay, Legal, AtomicBalance;
  }

  // ----- atomicity, over all orders -----

  /** The calls that decided on the key, in the order of their decisions. */
  function DecisionOrder(log: seq<Atom>, key: string): seq<nat> {
    if log == [] then []
    else
      var before, a := DecisionOrder(log[..|log| - 1], key), log[|log| - 1];
      if a.op.key == key && Decisive(a.act) then before + [a.call] else before
  }

  /** The balances after calls that run in this order as single-point operations. */
  function PlayedOut(calls: seq<Call>, order: seq<nat>, m: Balances): Balances {
    if order == [] || order[0] >= |calls| then m
    else
      var op := calls[order[0]].op;
      PlayedOut(calls, order[1..], m[op.key := AtOnce(BalanceOf(m, op.key, op.capacity), op).0])
  }

  lemma {:induction false} SeriallyAppend(calls: seq<Call>, order: seq<nat>, x: nat, m: Balances)
    requires Serially(calls, order, m) && x < |calls|
    ensures
      var after, op := PlayedOut(calls, order, m), calls[x].op;
      var (balance, granted) := AtOnce(BalanceOf(after, op.key, op.capacity), op);
      && (Serially(calls, order + [x], m) <==> calls[x].pc == Returned(granted))
      && PlayedOut(calls, order + [x], m) == after[op.key := balance]
  {
    hide AtOnce;
    if order == [] {
      assert ([] + [x])[1..] == [];
    } else {
      assert (order + [x])[1..] == order[1..] + [x];
      var op := calls[order[0]].op;
      SeriallyAppend(calls, order[1..], x, m[op.key := AtOnce(BalanceOf(m, op.key, op.capacity), op).0]);
    }
  }

  predicate ReturnedBefore(calls: seq<Call>, i: nat, j: nat) {
    i < |calls| && j < |calls| && calls[i].decidedAt.Some? && calls[i].decidedAt.value < calls[j].invokedAt
  }

  /** The order lists the returned calls on the key, each once and none after a call that was
      invoked only when it had returned, and gives their answers. */
  ghost predicate Explains(calls: seq<Call>, order: seq<nat>, key: string) {
    && (forall i: nat :: i in order <==> i < |calls| && calls[i].pc.Returned? && calls[i].op.key == key)
    && (forall a, b :: 0 <= a < b < |order| ==> order[a] != order[b])
    && (forall a, b :: 0 <= a < b < |order| ==> !ReturnedBefore(calls, order[b], order[a]))
    && Serially(calls, order, map[])
  }

  /** The reservations, refunds and credits of the key that returned are those of single-point
      operations, in some order that respects time. */
  ghost predicate AtomicOn(s: State, key: string) {
    exists order: seq<nat> :: Explains(s.calls, order, key)
  }

  predicate DecidedEarlier(s: State, i: nat, n: nat) {
    i < |s.calls| && s.calls[i].decidedAt.Some? && s.calls[i].decidedAt.value < n
  }

  lemma OrderNext(log: seq<Atom>, key: string, n: nat)
    requires 0 < n <= |log|
    ensures DecisionOrder(log[..n], key) ==
      DecisionOrder(log[..n - 1], key) +
        if log[n - 1].op.key == key && Decisive(log[n - 1].act) then [log[n - 1].call] else []
  {
    assert log[..n][..n - 1] == log[..n - 1];
  }

  /** Exactly one call decides at a decisive place, and none at any other. */
  lemma DecidedAtPlace(s: State, d: nat)
    requires Inv(s) && d < |s.log|
    ensures Decisive(s.log[d].act) ==>
      && s.log[d].call < |s.calls| && s.calls[s.log[d].call].op == s.log[d].op
      && s.calls[s.log[d].call].pc == Returned(s.log[d].act.Debit?)
    ensures forall i :: 0 <= i < |s.calls| ==>
      (s.calls[i].decidedAt == Some(d) <==> Decisive(s.log[d].act) && s.log[d].call == i)
  {
    forall i | 0 <= i < |s.calls|
      ensures s.calls[i].decidedAt == Some(d) <==> Decisive(s.log[d].act) && s.log[d].call == i
    {
      assert CallOk(s, i);
    }
    if Decisive(s.log[d].act) {
      assert CallOk(s, s.log[d].call);
    }
  }

  /** The order lists the calls on the key that decided before place `n`, by those places. */
  ghost predicate IsDecisionOrder(s: State, key: string, order: seq<nat>, n: nat) {
    && (forall i: nat :: i in order <==> DecidedEarlier(s, i, n) && s.calls[i].op.key == key)
    && (forall a :: 0 <= a < |order| ==> DecidedEarlier(s, order[a], n))
    && (forall a, b :: 0 <= a < b < |order| ==>
          s.calls[order[a]].decidedAt.value < s.calls[order[b]].decidedAt.value)
  }

  lemma OrderExtends(s: State, key: string, order: seq<nat>, n: nat, x: nat)
    requires IsDecisionOrder(s, key, order, n) && x < |s.calls| && s.calls[x].op.key == key
    requires forall i :: 0 <= i < |s.calls| ==> (s.calls[i].decidedAt == Some(n) <==> x == i)
    ensures IsDecisionOrder(s, key, order + [x], n + 1)
  {
    forall i: nat
      ensures i in order + [x] <==> DecidedEarlier(s, i, n + 1) && s.calls[i].op.key == key
    {
      assert DecidedEarlier(s, i, n + 1) <==> DecidedEarlier(s, i, n) || i == x;
    }
  }

  lemma OrderStays(s: State, key: string, order: seq<nat>, n: nat)
    requires IsDecisionOrder(s, key, order, n)
    requires forall i :: 0 <= i < |s.calls| && s.calls[i].decidedAt == Some(n) ==> s.calls[i].op.key != key
    ensures IsDecisionOrder(s, key, order, n + 1)
  {
  }

  lemma OrderOfNext(s: State, key: string, order: seq<nat>, n: nat)
    requires Inv(s) && n < |s.log| && IsDecisionOrder(s, key, order, n)
    ensures IsDecisionOrder(s, key,
      order + if s.log[n].op.key == key && Decisive(s.log[n].act) then [s.log[n].call] else [], n + 1)
  {
    DecidedAtPlace(s, n);
    hide Inv, IsDecisionOrder;
    if s.log[n].op.key == key && Decisive(s.log[n].act) {
      OrderExtends(s, key, order, n, s.log[n].call);
    } else {
      OrderStays(s, key, order, n);
      assert order + [] == order;
    }
  }

  /** The order of the decisions is that of their places in the log. */
  lemma {:induction false} OrderOfDecisions(s: State, key: string, n: nat)
    requires Inv(s) && n <= |s.log|
    ensures IsDecisionOrder(s, key, DecisionOrder(s.log[..n], key), n)
  {
    if n > 0 {
      OrderOfDecisions(s, key, n - 1);
      hide Inv, DecisionOrder, IsDecisionOrder;
      OrderNext(s.log, key, n);
      OrderOfNext(s, key, DecisionOrder(s.log[..n - 1], key), n - 1);
    }
  }

  lemma AnswerIsAtomic(s: State, key: string, capacity: int, d: nat)
    requires Inv(s) && LogFixed(s.log, key, capacity) && d < |s.log| && s.log[d].op.key == key && Decisive(s.log[d].act)
    ensures s.log[d].act.Debit? == AtOnce(AtomicBalance(s.log[..d], key, capacity), s.log[d].op).1
    ensures AtomicBalance(s.log[..d + 1], key, capacity) ==
      AtOnce(AtomicBalance(s.log[..d], key, capacity), s.log[d].op).0
    ensures s.log[d].op.capacity == capacity
  {
    LogEntry(s, d);
    assert s.log[..d + 1][..d] == s.log[..d];
    LegalIsAtomic(s.log[..d + 1], key, capacity);
    hide Inv, Replay, Legal;
  }

  /** With one capacity for the key, the calls run in the order of their decisions give their
      answers and leave the balance of the total map. */
  lemma {:induction false} DecisionsAreSerial(s: State, key: string, capacity: int, n: nat)
    requires Inv(s) && LogFixed(s.log, key, capacity) && n <= |s.log|
    ensures
      var order := DecisionOrder(s.log[..n], key);
      && Serially(s.calls, order, map[])
      && BalanceOf(PlayedOut(s.calls, order, map[]), key, capacity) == AtomicBalance(s.log[..n], key, capacity)
  {
    if n > 0 {
      var prefix, a := s.log[..n - 1], s.log[n - 1];
      var before := DecisionOrder(prefix, key);
      DecisionsAreSerial(s, key, capacity, n - 1);
      OrderNext(s.log, key, n);
      assert s.log[..n] == prefix + [a] && s.log[..n][..n - 1] == prefix;
      if a.op.key == key && Decisive(a.act) {
        DecidedAtPlace(s, n - 1);
        SeriallyAppend(s.calls, before, a.call, map[]);
        AnswerIsAtomic(s, key, capacity, n - 1);
      }
      hide Inv, Serially, PlayedOut, DecisionOrder;
    }
  }

  lemma ReturnedDecided(s: State)
    requires Inv(s)
    ensures forall i: nat :: i < |s.calls| ==> (s.calls[i].pc.Returned? <==> DecidedEarlier(s, i, |s.log|))
    ensures forall i: nat :: i < |s.calls| && s.calls[i].decidedAt.Some? ==>
      s.calls[i].invokedAt <= s.calls[i].decidedAt.value
  {
    hide EntriesOk, LogOk, Faithful, SeenOk;
    forall i: nat | i < |s.calls|
      ensures s.calls[i].pc.Returned? <==> DecidedEarlier(s, i, |s.log|)
      ensures s.calls[i].decidedAt.Some? ==> s.calls[i].invokedAt <= s.calls[i].decidedAt.value
    {
      assert CallOk(s, i);
    }
  }

  lemma OrderExplains(s: State, order: seq<nat>, key: string)
    requires IsDecisionOrder(s, key, order, |s.log|) && Serially(s.calls, order, map[])
    requires forall i: nat :: i < |s.calls| ==> (s.calls[i].pc.Returned? <==> DecidedEarlier(s, i, |s.log|))
    requires forall i: nat :: i < |s.calls| && s.calls[i].decidedAt.Some? ==>
      s.calls[i].invokedAt <= s.calls[i].decidedAt.value
    ensures Explains(s.calls, order, key)
  {
    hide Serially;
  }

  lemma OneCapacityExplains(events: seq<Event>, key: string, capacity: int)
    requires ValidEvents(events) && FixedCapacity(events, key, capacity)
    ensures AtomicOn(Exec(INIT, events), key)
  {
    hide Exec, Inv, Serially, DecisionOrder, LogFixed, IsDecisionOrder, Explains;
    ReachableInv(events);
    RunLogFixed(events, key, capacity);
    var s := Exec(INIT, events);
    assert s.log[..|s.log|] == s.log;
    DecisionsAreSerial(s, key, capacity, |s.log|);
    OrderOfDecisions(s, key, |s.log|);
    ReturnedDecided(s);
    OrderExplains(s, DecisionOrder(s.log, key), key);
  }

  // ----- two capacities are enough to lose it -----

  function Big(key: string, c1: int, c2: int): Op {
    ReserveOp(key, c2, c1)
  }

  function Small(key: string, c1: int): Op {
    ReserveOp(key, c1, 1)
  }

  /** The large bucket is clamped, drained by the call with the larger capacity, and denied to
      the call that clamped it. */
  function TwoCapacities(key: string, c1: int, c2: int): seq<Event> {
    Opening(Big(key, c1, c2), Small(key, c1)) + [Run(0), Run(0), Run(1), Run(1)]
  }

  predicate GrantDeny(calls: seq<Call>, key: string, c1: int, c2: int) {
    && |calls| == 2
    && calls[0].op == Big(key, c1, c2) && calls[0].pc == Returned(true)
    && calls[1].op == Small(key, c1) && calls[1].pc == Returned(false)
  }

  function Drained(big: Op, small: Op): State {
    State([0], map[big.key := 0],
          [Call(big, Returned(true), 0, Some(2)), Call(small, DebitCas(0, small.capacity, 2), 1, None)],
          [Atom(0, big, Create), Atom(1, small, ClampTo), Atom(0, big, Debit)])
  }

  lemma BigDrains(big: Op, small: Op)
    requires Mixed(big, small) && big.amount == small.capacity
    ensures Exec(Clamped(big, small), [Run(0), Run(0), Run(1), Run(1)]) == Exec(Drained(big, small), [Run(1), Run(1)])
  {
    hide Exec;
    var later, s7 := [Run(0), Run(0), Run(1), Run(1)], Clamped(big, small);
    OneEvent(s7, later);
    var s8 := Apply(s7, later[0]);
    assert s8.calls == [Call(big, DebitCas(0, small.capacity, 2), 0, None), s7.calls[1]];
    OneEvent(s8, later[1..]);
    assert Apply(s8, later[1]) == Drained(big, small);
    assert later[1..][1..] == [Run(1), Run(1)];
  }

  lemma SmallIsDenied(big: Op, small: Op)
    requires Mixed(big, small)
    ensures
      var calls := Exec(Drained(big, small), [Run(1), Run(1)]).calls;
      && |calls| == 2 && calls[0] == Drained(big, small).calls[0]
      && calls[1].op == small && calls[1].pc == Returned(false)
  {
    hide Exec;
    var later, s9 := [Run(1), Run(1)], Drained(big, small);
    OneEvent(s9, later);
    var s10 := Apply(s9, later[0]);
    assert s10.calls == [s9.calls[0], Call(small, Load(0), 1, None)];
    OneEvent(s10, later[1..]);
    NoEvent(Apply(s10, later[1]));
  }

  lemma TwoCapacitiesRun(key: string, c1: int, c2: int)
    requires 0 < c1 < c2
    ensures GrantDeny(Exec(INIT, TwoCapacities(key, c1, c2)).calls, key, c1, c2)
  {
    var big, small := Big(key, c1, c2), Small(key, c1);
    Opened(big, small, [Run(0), Run(0), Run(1), Run(1)]);
    BigDrains(big, small);
    SmallIsDenied(big, small);
    hide Exec;
  }

  /** Neither order gives the answers, from a fresh map or from a full bucket. */
  lemma NoOrderOfTwo(calls: seq<Call>, key: string, c1: int, c2: int, order: seq<nat>, m: Balances)
    requires 0 < c1 < c2 && GrantDeny(calls, key, c1, c2)
    requires IsOrder(order, 2) && (m == map[] || m == map[key := c2])
    ensures !Serially(calls, order, m)
  {
    if order[0] == 0 {
      assert order[1..] == [1];
      assert Serially(calls, order, m) ==> Serially(calls, [1], m[key := c2 - c1]);
      assert !Serially(calls, [1], m[key := c2 - c1]);
    }
  }

  function Members(order: seq<nat>): set<nat> {
    set x | x in order
  }

  lemma {:induction false} SizeOfDistinct(order: seq<nat>)
    requires forall i, j :: 0 <= i < j < |order| ==> order[i] != order[j]
    ensures |Members(order)| == |order|
  {
    if order != [] {
      var before, last := order[..|order| - 1], order[|order| - 1];
      SizeOfDistinct(before);
      assert order == before + [last] && forall i :: 0 <= i < |before| ==> before[i] == order[i];
      assert Members(order) == Members(before) + {last} && last !in Members(before);
    }
  }

  lemma OrderOfTwo(calls: seq<Call>, order: seq<nat>, key: string)
    requires |calls| == 2 && Explains(calls, order, key)
    requires forall i :: 0 <= i < 2 ==> calls[i].pc.Returned? && calls[i].op.key == key
    ensures IsOrder(order, 2)
  {
    hide Serially, ReturnedBefore;
    assert 0 in order && 1 in order;
    assert forall i :: 0 <= i < |order| ==> order[i] in order;
    SizeOfDistinct(order);
    assert Members(order) == {0, 1};
  }

  lemma TwoCapacitiesNotAtomic(key: string, c1: int, c2: int)
    requires 0 < c1 < c2
    ensures !AtomicOn(Exec(INIT, TwoCapacities(key, c1, c2)), key)
  {
    var calls := Exec(INIT, TwoCapacities(key, c1, c2)).calls;
    TwoCapacitiesRun(key, c1, c2);
    hide Exec, Serially;
    forall order: seq<nat>
      ensures !Explains(calls, order, key)
    {
      if Explains(calls, order, key) {
        OrderOfTwo(calls, order, key);
        NoOrderOfTwo(calls, key, c1, c2, order, map[]);
      }
    }
  }

  predicate CapacitiesFrom(events: seq<Event>, key: string, capacities: set<int>) {
    forall i :: 0 <= i < |events| && events[i].Invoke? && events[i].op.key == key ==>
      events[i].op.capacity in capacities
  }

  /** Every run in which the calls to a key carry capacities from a given set is one of
      single-point operations on that key, in some order that respects time, if and only if
      the set holds a single capacity. */
  lemma AtomicExactlyWithOneCapacity(key: string, capacities: set<int>)
    requires forall c :: c in capacities ==> 0 < c <= MAX_INT64
    ensures
      (forall events :: ValidEvents(events) && CapacitiesFrom(events, key, capacities) ==>
         AtomicOn(Exec(INIT, events), key))
      <==> (forall c, d :: c in capacities && d in capacities ==> c == d)
  {
    hide Exec, AtomicOn;
    if forall c, d :: c in capacities && d in capacities ==> c == d {
      forall events | ValidEvents(events) && CapacitiesFrom(events, key, capacities)
        ensures AtomicOn(Exec(INIT, events), key)
      {
        var capacity := if c :| c in capacities then c else 1;
        OneCapacityExplains(events, key, capacity);
      }
    } else {
      var c, d :| c in capacities && d in capacities && c != d;
      var c1, c2 := if c < d then c else d, if c < d then d else c;
      var events := TwoCapacities(key, c1, c2);
      TwoCapacitiesNotAtomic(key, c1, c2);
      assert ValidEvents(events) && CapacitiesFrom(events, key, capacities);
    }
  }

  // ----- conservation, under any reconfiguration -----

  /** The books of a key: tokens debited, tokens refunded, tokens earned by successes. */
  datatype Book = Spending | Refunds | Earnings

  predicate Entered(op: Op, debited: bool, book: Book) {
    match book
    case Spending => debited
    case Refunds => op.RefundOp?
    case Earnings => op.SuccessOp?
  }

  function EntryOf(a: Atom, key: string, book: Book): int {
    if a.op.key == key && Decisive(a.act) && Entered(a.op, a.act.Debit?, book) then a.op.amount else 0
  }

  function Total(log: seq<Atom>, key: string, book: Book): int {
    if log == [] then 0
    else Total(log[..|log| - 1], key, book) + EntryOf(log[|log| - 1], key, book)
  }

  lemma TotalAppend(log: seq<Atom>, a: Atom, key: string, book: Book)
    ensures Total(log + [a], key, book) == Total(log, key, book) + EntryOf(a, key, book)
  {
    assert (log + [a])[..|log|] == log;
  }

  /** What a step adds to the log: nothing, a preparation, or the decision that ends its call. */
  predicate Records(s: State, t: State, i: nat)
    requires i < |s.calls| && i < |t.calls|
  {
    var op, landed := s.calls[i].op, !s.calls[i].pc.Returned? && t.calls[i].pc.Returned?;
    var n := |s.log|;
    if !landed then
      t.log == s.log || (|t.log| == n + 1 && t.log == s.log + [t.log[n]] && !Decisive(t.log[n].act))
    else
      && (op.ReserveOp? || !t.calls[i].pc.granted)
      && (|t.log| == n + 1 || (|t.log| == n + 2 && t.log[n] == Atom(i, op, ClampTo)))
      && t.log == s.log + t.log[n..]
      && t.log[|t.log| - 1].op == op && Decisive(t.log[|t.log| - 1].act)
      && t.log[|t.log| - 1].act.Debit? == t.calls[i].pc.granted
  }

  lemma ClampRecords(s: State, i: nat, cell: nat, seen: int)
    requires i < |s.calls| && s.calls[i].pc.ClampCas? && s.calls[i].op.ReserveOp?
    ensures Records(s, StepClamp(s, i, cell, seen), i)
  {
    hide CellAt, Write;
  }

  lemma LookupRecords(s: State, i: nat)
    requires i < |s.calls| && (s.calls[i].pc.EntryLoad? || s.calls[i].pc.EntryStore?)
    ensures Records(s, Step(s, i), i)
  {
  }

  lemma StepRecords(s: State, i: nat)
    requires Inv(s) && i < |s.calls|
    ensures i < |Step(s, i).calls| && Records(s, Step(s, i), i)
  {
    assert CallOk(s, i);
    assert s.calls[i].pc.ClampCas? || s.calls[i].pc.DebitCas? ==> s.calls[i].op.ReserveOp?;
    hide Inv, CallOk, SeenOk, CreditTarget, CellAt, Write;
    match s.calls[i].pc
    case EntryLoad => LookupRecords(s, i);
    case EntryStore => LookupRecords(s, i);
    case Load(cell) =>
    case ClampCas(cell, seen, _) =>
      ClampRecords(s, i, cell, seen);
      hide Records, StepClamp;
    case DebitCas(cell, seen, _) =>
    case CreditCas(cell, seen, _) =>
    case Returned(_) =>
  }

  /** Call `i` takes effect between `s` and `t`. */
  predicate Lands(s: State, t: State, i: nat) {
    i < |s.calls| && i < |t.calls| && !s.calls[i].pc.Returned? && t.calls[i].pc.Returned?
  }

  lemma RecordsEnter(s: State, t: State, i: nat, key: string, book: Book)
    requires i < |s.calls| && i < |t.calls| && Records(s, t, i)
    ensures
      var op := s.calls[i].op;
      Total(t.log, key, book) == Total(s.log, key, book) +
        if op.key == key && Lands(s, t, i) && Entered(op, t.calls[i].pc.granted, book) then op.amount else 0
  {
    hide Total;
    var n := |s.log|;
    if |t.log| == n + 1 {
      TotalAppend(s.log, t.log[n], key, book);
      assert t.log == s.log + [t.log[n]];
    } else if |t.log| == n + 2 {
      TotalAppend(s.log, t.log[n], key, book);
      TotalAppend(s.log + [t.log[n]], t.log[n + 1], key, book);
      assert t.log == s.log + [t.log[n]] + [t.log[n + 1]];
    }
  }

  /** What a step puts into a book: the amount of its call, when the call takes effect. */
  lemma StepBooks(s: State, i: nat, key: string, book: Book)
    requires Inv(s) && i < |s.calls|
    ensures
      var t, op := Step(s, i), s.calls[i].op;
      Total(t.log, key, book) == Total(s.log, key, book) +
        if op.key == key && Lands(s, t, i) && Entered(op, t.calls[i].pc.granted, book) then op.amount else 0
  {
    hide Inv, Step, Total, Entered;
    StepRecords(s, i);
    RecordsEnter(s, Step(s, i), i, key, book);
  }

  /** Only reservations are granted. */
  lemma OnlyReservesAreGranted(s: State, i: nat)
    requires Inv(s) && i < |s.calls| && Lands(s, Step(s, i), i)
    ensures Step(s, i).calls[i].pc.granted ==> s.calls[i].op.ReserveOp?
  {
    hide Inv, Step;
    StepRecords(s, i);
  }

  /** The capacity in force when the key's entry was created. */
  function CreatedWith(log: seq<Atom>, key: string): int {
    if log == [] then 0
    else
      var a := log[|log| - 1];
      if a.op.key == key && a.act.Create? then a.op.capacity else CreatedWith(log[..|log| - 1], key)
  }

  lemma {:induction false} CreatedWithOneCapacity(log: seq<Atom>, key: string, capacity: int)
    requires Legal(log)
    requires forall i :: 0 <= i < |log| && log[i].op.key == key ==> log[i].op.capacity == capacity
    ensures key in Replay(log) ==> CreatedWith(log, key) == capacity
  {
    if log != [] {
      CreatedWithOneCapacity(log[..|log| - 1], key, capacity);
    }
  }

  /** Tokens are conserved: what a key holds and has spent never exceeds what it started
      with, got back and earned; an untouched key has spent nothing. */
  lemma {:induction false} Conservation(log: seq<Atom>, key: string)
    requires Legal(log) && ValidLog(log)
    ensures Total(log, key, Earnings) >= 0
    ensures key in Replay(log) ==>
      Replay(log)[key] + Total(log, key, Spending) <=
        CreatedWith(log, key) + Total(log, key, Refunds) + Total(log, key, Earnings)
    ensures key !in Replay(log) ==> Total(log, key, Spending) == Total(log, key, Refunds) == 0
  {
    if log != [] {
      Conservation(log[..|log| - 1], key);
    }
  }

  // ----- safety of balances, under any reconfiguration -----

  predicate CapacitiesUpTo(events: seq<Event>, bound: int) {
    forall i :: 0 <= i < |events| && events[i].Invoke? ==> events[i].op.capacity <= bound
  }

  lemma {:induction false} LegalBounds(log: seq<Atom>, bound: int)
    requires Legal(log) && ValidLog(log)
    requires forall i :: 0 <= i < |log| ==> log[i].op.capacity <= bound
    ensures forall k :: k in Replay(log) ==> 0 <= Replay(log)[k] <= bound
  {
    if log != [] {
      LegalBounds(log[..|log| - 1], bound);
    }
  }

  /** No balance is ever negative or above the largest capacity any caller used. */
  lemma BalancesInRange(events: seq<Event>, bound: int, key: string)
    requires ValidEvents(events) && CapacitiesUpTo(events, bound)
    ensures
      var m := Contents(Exec(INIT, events));
      key in m ==> 0 <= m[key] <= bound
  {
    ReachableInv(events);
    OpsWereInvoked(events);
    InvValidLog(Exec(INIT, events));
    LegalBounds(Exec(INIT, events).log, bound);
  }

  /** The 64-bit operations of the swap a call is about to make do not overflow. */
  predicate ArithmeticFits(op: Op, pc: Pc)
    requires HasSeen(pc)
  {
    && IsInt64(pc.seen)
    && (pc.DebitCas? ==> 0 <= pc.seen - op.amount && IsInt64(pc.seen - op.amount))
    && (pc.CreditCas? && pc.seen < op.capacity ==>
          IsInt64(op.capacity - pc.seen) && IsInt64(CreditTarget(op, pc.seen)))
  }

  lemma ValueInRange(s: State, i: nat)
    requires Inv(s) && i < |s.calls| && HasCell(s.calls[i].pc)
    ensures 0 <= CellAt(s, s.calls[i].pc.cell) <= MAX_INT64
  {
    assert CallOk(s, i);
    var key := s.calls[i].op.key;
    InvValidLog(s);
    LegalBounds(s.log, MAX_INT64);
    assert Contents(s)[key] == CellAt(s, s.calls[i].pc.cell);
  }

  lemma StepSeen(s: State, i: nat)
    requires Inv(s) && i < |s.calls|
    ensures
      var pc := Step(s, i).calls[i].pc;
      HasSeen(pc) && pc != s.calls[i].pc ==> 0 <= pc.seen <= MAX_INT64
  {
    if HasCell(s.calls[i].pc) {
      ValueInRange(s, i);
    }
    assert ValidOp(s.calls[i].op);
  }

  predicate SeenBounded(s: State) {
    forall i :: 0 <= i < |s.calls| && HasSeen(s.calls[i].pc) ==> 0 <= s.calls[i].pc.seen <= MAX_INT64
  }

  lemma ApplyKeepsSeen(s: State, e: Event)
    requires Inv(s) && SeenBounded(s)
    ensures SeenBounded(Apply(s, e))
  {
    if e.Run? && e.call < |s.calls| {
      StepIsStepped(s, e.call);
      StepSeen(s, e.call);
    }
  }

  lemma {:induction false} SeenInRange(events: seq<Event>)
    requires ValidEvents(events)
    ensures SeenBounded(Exec(INIT, events))
  {
    if events != [] {
      SeenInRange(events[..|events| - 1]);
      ReachableInv(events[..|events| - 1]);
      ApplyKeepsSeen(Exec(INIT, events[..|events| - 1]), events[|events| - 1]);
    }
  }

  /** No reachable swap overflows 64 bits, whatever capacities callers mix. */
  lemma NoOverflow(events: seq<Event>, i: nat)
    requires ValidEvents(events)
    requires i < |Exec(INIT, events).calls| && HasSeen(Exec(INIT, events).calls[i].pc)
    ensures
      var c := Exec(INIT, events).calls[i];
      ArithmeticFits(c.op, c.pc)
  {
    SeenInRange(events);
    ReachableInv(events);
    assert CallOk(Exec(INIT, events), i);
  }

  /** A balance rises only when a credit takes effect, by no more than the credited amount
      and never above the creditor's capacity. Reservations, whatever capacity they carry,
      never add tokens. */
  lemma RisesOnlyByCredit(events: seq<Event>, i: nat, key: string)
    requires ValidEvents(events) && i < |Exec(INIT, events).calls|
    requires key in Contents(Exec(INIT, events))
    requires
      var s := Exec(INIT, events);
      key in Contents(Step(s, i)) ==> Contents(Step(s, i))[key] > Contents(s)[key]
    ensures
      var s := Exec(INIT, events);
      var op, t := s.calls[i].op, Step(s, i);
      && !op.ReserveOp? && op.key == key && s.calls[i].pc.CreditCas? && t.calls[i].pc.Returned?
      && key in Contents(t) && Contents(t)[key] <= op.capacity
      && Contents(t)[key] <= Contents(s)[key] + op.amount
  {
    ReachableInv(events);
    var s := Exec(INIT, events);
    assert CallOk(s, i);
    StepIsStepped(s, i);
  }

  // ----- progress -----

  /** How many steps a call needs when nobody disturbs it. */
  function Rank(s: State, i: nat): nat
    requires i < |s.calls|
  {
    match s.calls[i].pc
    case EntryLoad => 5
    case EntryStore => 4
    case Load(_) => 3
    case ClampCas(cell, seen, _) => if CellAt(s, cell) == seen then 2 else 4
    case DebitCas(cell, seen, _) => if CellAt(s, cell) == seen then 1 else 4
    case CreditCas(cell, seen, _) => if CellAt(s, cell) == seen then 1 else 4
    case Returned(_) => 0
  }

  lemma StepLowersRank(s: State, i: nat)
    requires Inv(s) && i < |s.calls|
    ensures i < |Step(s, i).calls|
    ensures Rank(Step(s, i), i) < Rank(s, i) || (Rank(s, i) == 0 && Step(s, i) == s)
  {
    hide Faithful, LogOk;
    assert CallOk(s, i);
    if s.calls[i].pc.ClampCas? {
      assert Inv(Step(s, i)) by { StepKeepsInv(s, i); }
      assert CallOk(Step(s, i), i);
    }
  }

  function Alone(i: nat, n: nat): seq<Event> {
    if n == 0 then [] else Alone(i, n - 1) + [Run(i)]
  }

  lemma AloneStep(s: State, i: nat, n: nat)
    requires i < |Exec(s, Alone(i, n)).calls|
    ensures Exec(s, Alone(i, n + 1)) == Step(Exec(s, Alone(i, n)), i)
  {
    hide Step;
    assert Alone(i, n + 1)[..|Alone(i, n + 1)| - 1] == Alone(i, n);
  }

  lemma AloneStart(s: State, i: nat)
    ensures Exec(s, Alone(i, 0)) == s
  {
  }

  /** `t` is a sound state in which call `i` still needs at most `n` steps. */
  predicate Needs(t: State, i: nat, n: int) {
    Inv(t) && i < |t.calls| && Rank(t, i) <= if n < 0 then 0 else n
  }

  lemma NeedsLess(t: State, i: nat, n: int)
    requires Needs(t, i, n)
    ensures Needs(Step(t, i), i, n - 1)
  {
    StepKeepsInv(t, i);
    StepLowersRank(t, i);
    hide Inv, Step, Rank;
  }

  lemma NeedsCall(t: State, i: nat, n: int)
    requires Needs(t, i, n)
    ensures i < |t.calls| && (n <= 0 ==> t.calls[i].pc.Returned?)
  {
    hide Inv;
  }

  lemma {:induction false} AloneLowersRank(s: State, i: nat, n: nat, needed: int)
    requires Needs(s, i, needed)
    ensures Needs(Exec(s, Alone(i, n)), i, needed - n)
  {
    hide Needs, Step, Exec, Alone;
    if n == 0 {
      AloneStart(s, i);
    } else {
      AloneLowersRank(s, i, n - 1, needed);
      NeedsLess(Exec(s, Alone(i, n - 1)), i, needed - n + 1);
      NeedsCall(Exec(s, Alone(i, n - 1)), i, needed - n + 1);
      AloneStep(s, i, n - 1);
    }
  }

  /** The loops are obstruction-free: from every reachable state, five undisturbed steps of
      its own bring a call to its return. */
  lemma AloneItReturns(events: seq<Event>, i: nat)
    requires ValidEvents(events) && i < |Exec(INIT, events).calls|
    ensures
      var t := Exec(Exec(INIT, events), Alone(i, 5));
      i < |t.calls| && t.calls[i].pc.Returned?
  {
    ReachableInv(events);
    var s := Exec(INIT, events);
    assert Needs(s, i, 5) by { hide Inv; }
    hide Inv, Needs, Step, Exec, Alone;
    AloneLowersRank(s, i, 5, 5);
    NeedsCall(Exec(s, Alone(i, 5)), i, 0);
  }
}
