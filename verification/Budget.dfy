/** The retry budget of one transport: a token bucket per downstream. The bucket
    operations are specified as functions on balances; the classes are the lock-free
    code, whose compare-and-swap loops run against writes of other goroutines. */
module Budget {
  import opened Wrappers
  import opened Text

  datatype Config = Config(enabled: bool, capacity: int, retryCost: int, successIncrement: int)

  const DISABLED := Config(false, 0, 0, 0)

  /** An enabled configuration as the loader produces it. */
  predicate Positive(cfg: Config) {
    && 0 < cfg.capacity <= MAX_INT64
    && 0 < cfg.retryCost <= MAX_INT64
    && 0 < cfg.successIncrement <= MAX_INT64
  }

  predicate Usable(cfg: Config) {
    cfg.enabled ==> Positive(cfg)
  }

  // ----- configuration file -----

  datatype BudgetFile = BudgetFile(
    enabled: Option<bool>, capacity: Option<int>, retryCost: Option<int>, successIncrement: Option<int>)

  datatype BudgetError = BadCapacity | BadRetryCost | BadSuccessIncrement

  function Amounts(f: BudgetFile): set<Option<int>> {
    {f.capacity, f.retryCost, f.successIncrement}
  }

  /** toConfig: a budget that is not enabled is the disabled configuration, whatever
      else the file says. */
  function ToConfig(file: Option<BudgetFile>): (r: Result<Config, BudgetError>)
    ensures r.Ok? && r.value.enabled ==>
      && file.Some? && r.value.capacity > 0 && r.value.retryCost > 0 && r.value.successIncrement > 0
      && file.value.capacity == Some(r.value.capacity) && file.value.retryCost == Some(r.value.retryCost)
      && file.value.successIncrement == Some(r.value.successIncrement)
    ensures r.Ok? ==> (r.value.enabled <==> file.Some? && file.value.enabled == Some(true))
    ensures r.Err? ==>
      && file.Some? && file.value.enabled == Some(true)
      && exists amount :: amount in Amounts(file.value) && (amount.Some? ==> amount.value <= 0)
    ensures r.Ok? && !r.value.enabled ==> r.value == DISABLED
  {
    if file.None? || file.value.enabled != Some(true) then Ok(DISABLED)
    else
      var f := file.value;
      if f.capacity.None? || f.capacity.value <= 0 then Err(BadCapacity)
      else if f.retryCost.None? || f.retryCost.value <= 0 then Err(BadRetryCost)
      else if f.successIncrement.None? || f.successIncrement.value <= 0 then Err(BadSuccessIncrement)
      else Ok(Config(true, f.capacity.value, f.retryCost.value, f.successIncrement.value))
  }

  /** validateRetryBudgetFileLayer: a layer may be incomplete, but what it sets is positive. */
  function LayerError(file: Option<BudgetFile>): Option<BudgetError> {
    if file.None? then None
    else
      var f := file.value;
      if f.capacity.Some? && f.capacity.value <= 0 then Some(BadCapacity)
      else if f.retryCost.Some? && f.retryCost.value <= 0 then Some(BadRetryCost)
      else if f.successIncrement.Some? && f.successIncrement.value <= 0 then Some(BadSuccessIncrement)
      else None
  }

  predicate PositiveIfSet(amount: Option<int>) {
    amount.Some? ==> amount.value > 0
  }

  /** A layer passes exactly when every amount it sets is positive, complete or not. */
  lemma LayerPasses(file: Option<BudgetFile>)
    ensures LayerError(file).None? <==>
      (file.Some? ==> PositiveIfSet(file.value.capacity) && PositiveIfSet(file.value.retryCost)
                      && PositiveIfSet(file.value.successIncrement))
  {
  }

  /** mergeRetryBudgetFiles: the override's set fields win. */
  function MergeFiles(base: Option<BudgetFile>, override: Option<BudgetFile>): Option<BudgetFile> {
    if base.None? && override.None? then None
    else
      var b := if base.Some? then base.value else BudgetFile(None, None, None, None);
      if override.None? then Some(b)
      else
        var o := override.value;
        Some(BudgetFile(Or(o.enabled, b.enabled), Or(o.capacity, b.capacity),
                        Or(o.retryCost, b.retryCost), Or(o.successIncrement, b.successIncrement)))
  }

  function EnabledIn(f: Option<BudgetFile>): Option<bool> { if f.Some? then f.value.enabled else None }
  function CapacityIn(f: Option<BudgetFile>): Option<int> { if f.Some? then f.value.capacity else None }
  function RetryCostIn(f: Option<BudgetFile>): Option<int> { if f.Some? then f.value.retryCost else None }
  function IncrementIn(f: Option<BudgetFile>): Option<int> { if f.Some? then f.value.successIncrement else None }

  /** Each of the four fields is the upper layer's where it sets it, and otherwise the lower's. */
  predicate LayersOf(lower: Option<BudgetFile>, upper: Option<BudgetFile>, merged: Option<BudgetFile>) {
    && EnabledIn(merged) == Or(EnabledIn(upper), EnabledIn(lower))
    && CapacityIn(merged) == Or(CapacityIn(upper), CapacityIn(lower))
    && RetryCostIn(merged) == Or(RetryCostIn(upper), RetryCostIn(lower))
    && IncrementIn(merged) == Or(IncrementIn(upper), IncrementIn(lower))
  }

  lemma MergeLayers(lower: Option<BudgetFile>, upper: Option<BudgetFile>)
    ensures LayersOf(lower, upper, MergeFiles(lower, upper))
  {
  }

  predicate IsOn(flag: Option<bool>) {
    flag.Some? && flag.value
  }

  predicate IsPositive(amount: Option<int>) {
    amount.Some? && amount.value > 0
  }

  /** Two layers that switch the budget on give it three positive amounts. */
  predicate BudgetComplete(lower: Option<BudgetFile>, upper: Option<BudgetFile>) {
    IsOn(Or(EnabledIn(upper), EnabledIn(lower))) ==>
      && IsPositive(Or(CapacityIn(upper), CapacityIn(lower)))
      && IsPositive(Or(RetryCostIn(upper), RetryCostIn(lower)))
      && IsPositive(Or(IncrementIn(upper), IncrementIn(lower)))
  }

  /** The budget two layers serve. */
  predicate BudgetOfLayers(lower: Option<BudgetFile>, upper: Option<BudgetFile>, budget: Config) {
    if IsOn(Or(EnabledIn(upper), EnabledIn(lower))) then
      && budget.enabled
      && Some(budget.capacity) == Or(CapacityIn(upper), CapacityIn(lower))
      && Some(budget.retryCost) == Or(RetryCostIn(upper), RetryCostIn(lower))
      && Some(budget.successIncrement) == Or(IncrementIn(upper), IncrementIn(lower))
    else budget == Config(false, 0, 0, 0)
  }

  lemma ConfigOfFile(f: Option<BudgetFile>)
    ensures ToConfig(f).Ok? <==>
      (IsOn(EnabledIn(f)) ==> IsPositive(CapacityIn(f)) && IsPositive(RetryCostIn(f)) && IsPositive(IncrementIn(f)))
    ensures ToConfig(f).Ok? && IsOn(EnabledIn(f)) ==>
      ToConfig(f).value == Config(true, CapacityIn(f).value, RetryCostIn(f).value, IncrementIn(f).value)
    ensures ToConfig(f).Ok? && !IsOn(EnabledIn(f)) ==> ToConfig(f).value == Config(false, 0, 0, 0)
  {
  }

  lemma MergedBudgetServes(lower: Option<BudgetFile>, upper: Option<BudgetFile>)
    ensures
      var served := ToConfig(MergeFiles(lower, upper));
      && (served.Ok? <==> BudgetComplete(lower, upper))
      && (served.Ok? ==> BudgetOfLayers(lower, upper, served.value))
  {
    MergeLayers(lower, upper);
    ConfigOfFile(MergeFiles(lower, upper));
    hide MergeFiles, ToConfig, Or, EnabledIn, CapacityIn, RetryCostIn, IncrementIn;
  }

  // ----- the atomic token bucket -----

  /** Clamp, then debit when the balance covers the cost. */
  function ReserveOn(balance: int, capacity: int, cost: int): (int, bool) {
    var clamped := Min(balance, capacity);
    if clamped < cost then (clamped, false) else (clamped - cost, true)
  }

  /** Saturating credit. */
  function CreditOn(balance: int, amount: int, capacity: int): int {
    Min(balance + amount, capacity)
  }

  function BudgetKey(name: string): string {
    if NameKey(name) == "" then "unclassified" else NameKey(name)
  }

  /** Two names of one bucket: they agree up to case and surrounding blanks, where a blank
      name stands for "unclassified". */
  predicate SameDownstream(a: string, b: string) {
    EqualUpToCase(OrText(Trim(a), "unclassified"), OrText(Trim(b), "unclassified"))
  }

  lemma KeyIsFolded(name: string)
    ensures BudgetKey(name) == Lower(OrText(Trim(name), "unclassified"))
  {
    hide Trim;
    assert Lower("unclassified") == "unclassified";
    assert |NameKey(name)| == |Trim(name)|;
  }

  /** Names share a key exactly when they are names of one downstream. */
  lemma KeyExactly(a: string, b: string)
    ensures BudgetKey(a) == BudgetKey(b) <==> SameDownstream(a, b)
  {
    KeyIsFolded(a);
    KeyIsFolded(b);
    FoldExactly(OrText(Trim(a), "unclassified"), OrText(Trim(b), "unclassified"));
    hide Trim, BudgetKey, OrText, EqualUpToCase;
  }

  type Balances = map<string, int>

  /** The balance an operation with this capacity finds: an untouched key is full. */
  function BalanceOf(m: Balances, key: string, capacity: int): int {
    if key in m then m[key] else capacity
  }

  function AfterReserve(m: Balances, name: string, cfg: Config): (Balances, bool) {
    if !cfg.enabled then (m, true)
    else
      var key := BudgetKey(name);
      var (balance, granted) := ReserveOn(BalanceOf(m, key, cfg.capacity), cfg.capacity, cfg.retryCost);
      (m[key := balance], granted)
  }

  function AfterRefund(m: Balances, name: string, cfg: Config): Balances {
    if !cfg.enabled then m
    else
      var key := BudgetKey(name);
      m[key := CreditOn(BalanceOf(m, key, cfg.capacity), cfg.retryCost, cfg.capacity)]
  }

  function AfterSuccess(m: Balances, name: string, cfg: Config): Balances {
    var key := BudgetKey(name);
    if !cfg.enabled || key !in m then m
    else m[key := CreditOn(m[key], cfg.successIncrement, cfg.capacity)]
  }

  /** An update of one bucket, seen by the names of all. */
  ghost predicate OnlyChanges(before: Balances, after: Balances, name: string, balance: int) {
    && BudgetKey(name) in after && after[BudgetKey(name)] == balance
    && (forall key :: key != BudgetKey(name) ==>
          (key in after <==> key in before) && (key in before ==> after[key] == before[key]))
  }

  /** The balance a caller of this name and capacity finds. */
  function BalanceUnder(m: Balances, name: string, capacity: int): int {
    BalanceOf(m, BudgetKey(name), capacity)
  }

  lemma NamesApart(before: Balances, after: Balances, name: string, balance: int, other: string, capacity: int)
    requires OnlyChanges(before, after, name, balance)
    ensures BalanceUnder(after, other, capacity) ==
      if SameDownstream(name, other) then balance else BalanceUnder(before, other, capacity)
  {
    KeyExactly(name, other);
    hide BudgetKey, SameDownstream;
  }

  /** The names of the downstream find this balance, if it was touched; every other name finds
      what it found before. */
  ghost predicate SeenByName(before: Balances, after: Balances, name: string, touched: bool, balance: int) {
    forall other: string, capacity: int ::
      (BalanceUnder(after, other, capacity) ==
        if touched && SameDownstream(name, other) then balance else BalanceUnder(before, other, capacity))
  }

  lemma EveryName(before: Balances, after: Balances, name: string, balance: int)
    requires OnlyChanges(before, after, name, balance)
    ensures SeenByName(before, after, name, true, balance)
  {
    forall other: string, capacity: int
      ensures BalanceUnder(after, other, capacity) ==
        if SameDownstream(name, other) then balance else BalanceUnder(before, other, capacity)
    {
      NamesApart(before, after, name, balance, other, capacity);
    }
    hide BalanceUnder, SameDownstream, OnlyChanges;
  }

  /** What a reservation means for the names of all downstreams. */
  ghost predicate ReservedByName(m: Balances, after: Balances, name: string, cfg: Config, granted: bool) {
    var balance := Min(BalanceUnder(m, name, cfg.capacity), cfg.capacity);
    && granted == (cfg.enabled ==> cfg.retryCost <= balance)
    && SeenByName(m, after, name, cfg.enabled, if granted then balance - cfg.retryCost else balance)
  }

  lemma NothingSeen(m: Balances, name: string, balance: int)
    ensures SeenByName(m, m, name, false, balance)
  {
  }

  lemma ReserveByName(m: Balances, name: string, cfg: Config)
    ensures ReservedByName(m, AfterReserve(m, name, cfg).0, name, cfg, AfterReserve(m, name, cfg).1)
  {
    hide BudgetKey, SameDownstream, SeenByName;
    if cfg.enabled {
      var (after, granted) := AfterReserve(m, name, cfg);
      EveryName(m, after, name, after[BudgetKey(name)]);
    } else {
      NothingSeen(m, name, Min(BalanceUnder(m, name, cfg.capacity), cfg.capacity) - cfg.retryCost);
      NothingSeen(m, name, Min(BalanceUnder(m, name, cfg.capacity), cfg.capacity));
    }
  }

  // ----- the lock-free code -----

  /** One downstream's atomic balance. */
  class Entry {
    var balance: int

    constructor (initial: int)
      ensures balance == initial
    {
      balance := initial;
    }

    method CompareAndSwap(expected: int, next: int) returns (swapped: bool)
      modifies this
      ensures swapped == (old(balance) == expected)
      ensures balance == if swapped then next else old(balance)
    {
      swapped := balance == expected;
      if swapped {
        balance := next;
      }
    }

    /** What other goroutines do between a load and the swap that follows it: the next
        value of `writes`, if there is one left, is stored. */
    method Interfere(writes: seq<int>, used: nat) returns (now: nat)
      requires used <= |writes|
      modifies this
      ensures now == if used < |writes| then used + 1 else used
      ensures balance == if used < |writes| then writes[used] else old(balance)
    {
      now := used;
      if used < |writes| {
        balance := writes[used];
        now := used + 1;
      }
    }
  }

  /** The balance left by the last of the first `used` foreign writes. */
  function LastWritten(initial: int, writes: seq<int>, used: nat): int
    requires used <= |writes|
  {
    if used == 0 then initial else writes[used - 1]
  }

  /** The loop of `reserve`. It returns once the foreign writes leave it one undisturbed
      round, and its effect is the atomic reservation on the balance found last. */
  method ReserveLoop(entry: Entry, capacity: int, cost: int, writes: seq<int>) returns (granted: bool, used: nat)
    requires 0 < cost
    modifies entry
    ensures used <= |writes|
    ensures (entry.balance, granted) == ReserveOn(LastWritten(old(entry.balance), writes, used), capacity, cost)
  {
    used := 0;
    while true
      invariant used <= |writes|
      invariant Min(entry.balance, capacity) == Min(LastWritten(old(entry.balance), writes, used), capacity)
      decreases |writes| - used
    {
      var balance := entry.balance;
      if balance > capacity {
        used := entry.Interfere(writes, used);
        var clamped := entry.CompareAndSwap(balance, capacity);
        if !clamped {
          continue;
        }
        balance := capacity;
      }
      if balance < cost {
        return false, used;
      }
      used := entry.Interfere(writes, used);
      var debited := entry.CompareAndSwap(balance, balance - cost);
      if debited {
        return true, used;
      }
    }
  }

  /** addRetryBudgetBalance, in the same setting. */
  method CreditLoop(entry: Entry, amount: int, capacity: int, writes: seq<int>) returns (used: nat)
    requires 0 < amount
    modifies entry
    ensures used <= |writes|
    ensures entry.balance == CreditOn(LastWritten(old(entry.balance), writes, used), amount, capacity)
  {
    used := 0;
    while true
      invariant used <= |writes|
      invariant entry.balance == LastWritten(old(entry.balance), writes, used)
      decreases |writes| - used
    {
      var balance := entry.balance;
      if balance >= capacity {
        if balance == capacity {
          return;
        }
        used := entry.Interfere(writes, used);
        var clamped := entry.CompareAndSwap(balance, capacity);
        if clamped {
          return;
        }
        continue;
      }
      var next := capacity;
      if amount < capacity - balance {
        next := balance + amount;
      }
      used := entry.Interfere(writes, used);
      var credited := entry.CompareAndSwap(balance, next);
      if credited {
        return;
      }
    }
  }

  /** A one-shot handle on reserved tokens. */
  class Reservation {
    const budget: RetryBudget
    const name: string
    const cost: int
    const capacity: int
    var done: bool

    constructor (budget: RetryBudget, name: string, cost: int, capacity: int)
      ensures this.budget == budget && this.name == name && this.cost == cost && this.capacity == capacity
      ensures !done
    {
      this.budget, this.name, this.cost, this.capacity := budget, name, cost, capacity;
      done := false;
    }

    method Commit()
      modifies this`done
      ensures done
    {
      done := true;
    }

    /** Gives the tokens back, unless the handle was already settled. */
    method Refund()
      requires budget.Valid() && 0 < cost
      modifies this`done, budget, budget.entries.Values
      ensures done && budget.Valid()
      ensures fresh(budget.entries.Values - old(budget.entries.Values))
      ensures budget.Contents() ==
        if old(done) then old(budget.Contents())
        else
          var m, key := old(budget.Contents()), BudgetKey(name);
          m[key := CreditOn(BalanceOf(m, key, capacity), cost, capacity)]
      ensures SeenByName(old(budget.Contents()), budget.Contents(), name, !old(done),
                         Min(BalanceUnder(old(budget.Contents()), name, capacity) + cost, capacity))
    {
      hide BudgetKey, SameDownstream;
      ghost var before := budget.Contents();
      if !done {
        done := true;
        budget.Add(BudgetKey(name), cost, capacity);
        EveryName(before, budget.Contents(), name, Min(BalanceUnder(before, name, capacity) + cost, capacity));
      }
    }
  }

  class RetryBudget {
    var entries: map<string, Entry>

    constructor ()
      ensures Valid() && Contents() == map[]
    {
      entries := map[];
    }

    /** Distinct keys have distinct entries. */
    ghost predicate Valid()
      reads this
    {
      forall k, k' :: k in entries && k' in entries && k != k' ==> entries[k] != entries[k']
    }

    ghost function Contents(): Balances
      reads this, entries.Values
    {
      map k | k in entries :: entries[k].balance
    }

    /** Load, or store a full candidate. */
    method EntryFor(key: string, capacity: int) returns (entry: Entry)
      requires Valid()
      modifies this
      ensures Valid() && key in entries && entries[key] == entry
      ensures entries.Values == old(entries.Values) + {entry}
      ensures entry in old(entries.Values) || fresh(entry)
      ensures Contents() == old(Contents())[key := BalanceOf(old(Contents()), key, capacity)]
    {
      if key in entries {
        entry := entries[key];
        assert Contents()[key] == entry.balance;
      } else {
        entry := new Entry(capacity);
        entries := entries[key := entry];
        assert forall k :: k in entries <==> k == key || k in old(entries);
        assert key in entries;
      }
    }

    /** Runs the reservation loop on the entry of `key`. */
    method Debit(key: string, capacity: int, cost: int) returns (granted: bool)
      requires Valid() && 0 < cost
      modifies this, entries.Values
      ensures Valid() && fresh(entries.Values - old(entries.Values))
      ensures
        var (balance, ok) := ReserveOn(BalanceOf(old(Contents()), key, capacity), capacity, cost);
        granted == ok && Contents() == old(Contents())[key := balance]
    {
      var entry := EntryFor(key, capacity);
      ghost var before := Contents();
      var used;
      granted, used := ReserveLoop(entry, capacity, cost, []);
      assert before[key] == BalanceOf(old(Contents()), key, capacity);
      assert Contents() == old(Contents())[key := entry.balance];
    }

    method Reserve(name: string, cfg: Config) returns (reservation: Reservation?, granted: bool)
      requires Valid() && (cfg.enabled ==> 0 < cfg.retryCost)
      modifies this, entries.Values
      ensures Valid() && fresh(entries.Values - old(entries.Values))
      ensures (Contents(), granted) == AfterReserve(old(Contents()), name, cfg)
      ensures ReservedByName(old(Contents()), Contents(), name, cfg, granted)
      ensures reservation != null <==> cfg.enabled && granted
      ensures reservation != null ==>
        && fresh(reservation) && !reservation.done && reservation.budget == this && reservation.name == name
        && reservation.cost == cfg.retryCost && reservation.capacity == cfg.capacity
    {
      hide ReservedByName;
      ReserveByName(Contents(), name, cfg);
      if !cfg.enabled {
        return null, true;
      }
      granted := Debit(BudgetKey(name), cfg.capacity, cfg.retryCost);
      if !granted {
        return null, false;
      }
      reservation := new Reservation(this, name, cfg.retryCost, cfg.capacity);
    }

    method Add(key: string, amount: int, capacity: int)
      requires Valid() && 0 < amount
      modifies this, entries.Values
      ensures Valid() && fresh(entries.Values - old(entries.Values))
      ensures Contents() ==
        old(Contents())[key := CreditOn(BalanceOf(old(Contents()), key, capacity), amount, capacity)]
    {
      var entry := EntryFor(key, capacity);
      ghost var before := Contents();
      var _ := CreditLoop(entry, amount, capacity, []);
      assert before[key] == BalanceOf(old(Contents()), key, capacity);
      assert Contents() == old(Contents())[key := entry.balance];
    }

    method RecordSuccess(name: string, cfg: Config)
      requires Valid() && (cfg.enabled ==> 0 < cfg.successIncrement)
      modifies entries.Values
      ensures Valid() && Contents() == AfterSuccess(old(Contents()), name, cfg)
      ensures
        SeenByName(old(Contents()), Contents(), name, cfg.enabled && BudgetKey(name) in old(entries),
                   Min(BalanceUnder(old(Contents()), name, cfg.capacity) + cfg.successIncrement, cfg.capacity))
    {
      hide BudgetKey, SameDownstream;
      var key := BudgetKey(name);
      ghost var before := Contents();
      if cfg.enabled && key in entries {
        var _ := CreditLoop(entries[key], cfg.successIncrement, cfg.capacity, []);
        EveryName(before, Contents(), name, Min(before[key] + cfg.successIncrement, cfg.capacity));
      }
    }
  }
}
