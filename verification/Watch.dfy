/** The blocking watch loop of the configuration loader. It reads each lookup path in turn,
    compares what it finds with what it recorded, and reloads all paths after a change or
    an error. The store may change between any two reads. */
module Watch {
  import opened Wrappers
  import opened Text

  /** What the store holds at a path: a version that grows with every write or deletion, and
      for a present key the index reported with it, 0 when there is none. */
  datatype Reading = Missing(version: nat) | Present(version: nat, index: nat)

  /** The world at each tick; every read of the store takes one tick. */
  datatype World = World(
    store: (nat, string) -> Reading,
    fails: nat -> bool,     // the read fails, other than by not finding the key
    rejects: nat -> bool)   // what a reload ending here has read is not a valid configuration

  predicate SameIndex(a: Reading, b: Reading) {
    a.Present? && b.Present? && a.index == b.index && a.index != 0
  }

  /** Versions never go back, a version is one content, and an index other than 0 stands for
      one version. */
  ghost predicate Consistent(w: World) {
    && (forall t: nat, u: nat, p: string :: t <= u ==> w.store(t, p).version <= w.store(u, p).version)
    && (forall t: nat, u: nat, p: string :: w.store(t, p).version == w.store(u, p).version ==>
          w.store(t, p).Missing? == w.store(u, p).Missing?)
    && (forall t: nat, u: nat, p: string :: SameIndex(w.store(t, p), w.store(u, p)) ==>
          w.store(t, p).version == w.store(u, p).version)
  }

  /** retryConfigLookupPaths. */
  function LookupPaths(appName: string): (paths: seq<string>)
    ensures |paths| == if Trim(appName) == "" then 1 else 2
    ensures paths[0] == "config/go/application/retry"
    ensures Trim(appName) != "" ==> paths[1] == "config/go/" + Trim(appName) + "/retry"
  {
    ["config/go/application/retry"] + if Trim(appName) == "" then [] else ["config/go/" + Trim(appName) + "/retry"]
  }

  /** retryConfigWatchState. */
  datatype WatchState = WatchState(seen: bool, present: bool, index: nat)

  const UNSEEN := WatchState(false, false, 0)

  function Recorded(r: Reading): WatchState {
    if r.Missing? then WatchState(true, false, 0) else WatchState(true, true, r.index)
  }

  /** Whether waitForRetryConfigChange reports this reading as a change. */
  predicate Reported(before: WatchState, r: Reading) {
    before.seen &&
    if r.Missing? then before.present
    else !before.present || (r.index != 0 && r.index != before.index)
  }

  // ----- the loop as a machine of single reads -----

  /** The next path to watch, or, when a reload is pending, to load. */
  datatype Pc = Watching(next: nat) | Reloading(next: nat)

  /** Beside what the loop keeps: the reading behind each watch state, and the readings the
      served configuration was loaded from. */
  datatype State = State(
    pc: Pc,
    states: map<string, WatchState>,
    observed: map<string, Reading>,
    loaded: map<string, Reading>,
    fetched: map<string, Reading>)

  function Start(loaded: map<string, Reading>): State {
    State(Watching(0), map[], map[], loaded, map[])
  }

  function StateOf(states: map<string, WatchState>, p: string): WatchState {
    if p in states then states[p] else UNSEEN
  }

  function Observe(s: State, p: string, r: Reading): State {
    s.(states := s.states[p := Recorded(r)], observed := s.observed[p := r])
  }

  function Step(w: World, paths: seq<string>, t: nat, s: State): State {
    if s.pc.next >= |paths| then s
    else
      var p := paths[s.pc.next];
      var r := w.store(t, p);
      match s.pc
      case Watching(i) =>
        if w.fails(t) then s.(pc := Reloading(0), fetched := map[])
        else
          var seen := Observe(s, p, r);
          if Reported(StateOf(s.states, p), r) then seen.(pc := Reloading(0), fetched := map[])
          else seen.(pc := Watching(if i + 1 == |paths| then 0 else i + 1))
      case Reloading(i) =>
        if w.fails(t) then s.(pc := Reloading(0), fetched := map[])
        else
          var fetched := s.fetched[p := r];
          if i + 1 < |paths| then s.(pc := Reloading(i + 1), fetched := fetched)
          else if w.rejects(t) then s.(pc := Reloading(0), fetched := map[])
          else s.(pc := Watching(0), loaded := fetched, fetched := map[])
  }

  /** The state after the reads at ticks `start` to `start + n - 1`. */
  function Run(w: World, paths: seq<string>, start: nat, loaded: map<string, Reading>, n: nat): State {
    if n == 0 then Start(loaded)
    else Step(w, paths, start + n - 1, Run(w, paths, start, loaded, n - 1))
  }

  // ----- invariant -----

  /** The reading was made before tick `t`. */
  ghost predicate Past(w: World, t: nat, p: string, r: Reading) {
    exists u: nat :: u < t && r == w.store(u, p)
  }

  ghost predicate AllPast(w: World, t: nat, readings: map<string, Reading>) {
    forall p :: p in readings ==> Past(w, t, p, readings[p])
  }

  /** What the loop keeps fits what it read. */
  ghost predicate StatesOk(paths: seq<string>, states: map<string, WatchState>, observed: map<string, Reading>) {
    && states.Keys == observed.Keys
    && (forall p :: p in observed ==> p in paths && states[p] == Recorded(observed[p]))
  }

  /** A reload in progress has read the paths before the next one, no earlier than the watch. */
  ghost predicate FetchedOk(paths: seq<string>, pc: Pc, fetched: map<string, Reading>, observed: map<string, Reading>) {
    && pc.next < |paths|
    && (pc.Reloading? ==> forall k :: 0 <= k < pc.next ==> paths[k] in fetched)
    && (pc.Watching? ==> fetched == map[])
    && (forall p :: p in fetched && p in observed ==> observed[p].version <= fetched[p].version)
  }

  ghost predicate AllRead(paths: seq<string>, readings: map<string, Reading>) {
    forall p :: p in paths ==> p in readings
  }

  ghost predicate Inv(w: World, paths: seq<string>, t: nat, s: State) {
    && AllPast(w, t, s.observed) && AllPast(w, t, s.loaded) && AllPast(w, t, s.fetched)
    && StatesOk(paths, s.states, s.observed)
    && FetchedOk(paths, s.pc, s.fetched, s.observed)
    && AllRead(paths, s.loaded)
  }

  lemma PastEarlier(w: World, t: nat, p: string, r: Reading)
    requires Consistent(w) && Past(w, t, p, r)
    ensures r.version <= w.store(t, p).version
    ensures r.version == w.store(t, p).version ==> r.Missing? == w.store(t, p).Missing?
    ensures SameIndex(r, w.store(t, p)) ==> r.version == w.store(t, p).version
  {
  }

  lemma PastLater(w: World, t: nat, readings: map<string, Reading>)
    requires AllPast(w, t, readings)
    ensures AllPast(w, t + 1, readings)
  {
    forall p | p in readings
      ensures Past(w, t + 1, p, readings[p])
    {
      assert Past(w, t, p, readings[p]);
    }
  }

  lemma PastExtended(w: World, t: nat, readings: map<string, Reading>, p: string)
    requires AllPast(w, t, readings)
    ensures AllPast(w, t + 1, readings[p := w.store(t, p)])
  {
    PastLater(w, t, readings);
    assert Past(w, t + 1, p, w.store(t, p));
  }

  lemma NothingRead(w: World, t: nat)
    ensures AllPast(w, t, map[])
  {
  }

  /** A read finds nothing older than what was observed. */
  lemma ReadIsNewer(w: World, t: nat, readings: map<string, Reading>, p: string)
    requires Consistent(w) && AllPast(w, t, readings) && p in readings
    ensures readings[p].version <= w.store(t, p).version
    ensures readings[p].version == w.store(t, p).version ==> readings[p].Missing? == w.store(t, p).Missing?
    ensures SameIndex(readings[p], w.store(t, p)) ==> readings[p].version == w.store(t, p).version
  {
    assert Past(w, t, p, readings[p]);
    PastEarlier(w, t, p, readings[p]);
  }

  lemma ObserveKeepsStates(paths: seq<string>, s: State, p: string, r: Reading)
    requires StatesOk(paths, s.states, s.observed) && p in paths
    requires p in s.observed ==> s.observed[p].version <= r.version
    ensures StatesOk(paths, Observe(s, p, r).states, Observe(s, p, r).observed)
  {
    hide Recorded;
  }

  lemma WatchKeepsInv(w: World, paths: seq<string>, t: nat, s: State)
    requires Consistent(w) && Inv(w, paths, t, s) && s.pc.Watching?
    ensures Inv(w, paths, t + 1, Step(w, paths, t, s))
  {
    hide AllPast, Past, Consistent, Reported, AllRead, SameIndex, Recorded, StatesOk;
    var p := paths[s.pc.next];
    var r := w.store(t, p);
    PastLater(w, t, s.observed);
    PastLater(w, t, s.loaded);
    PastExtended(w, t, s.observed, p);
    NothingRead(w, t + 1);
    if p in s.observed {
      ReadIsNewer(w, t, s.observed, p);
    }
    ObserveKeepsStates(paths, s, p, r);
  }

  lemma FetchKeeps(paths: seq<string>, i: nat, fetched: map<string, Reading>, observed: map<string, Reading>,
      r: Reading)
    requires i < |paths| && FetchedOk(paths, Reloading(i), fetched, observed)
    requires paths[i] in observed ==> observed[paths[i]].version <= r.version
    ensures i + 1 < |paths| ==> FetchedOk(paths, Reloading(i + 1), fetched[paths[i] := r], observed)
    ensures i + 1 == |paths| ==> AllRead(paths, fetched[paths[i] := r])
  {
  }

  lemma PositionInRange(w: World, paths: seq<string>, t: nat, s: State)
    requires Inv(w, paths, t, s)
    ensures s.pc.next < |paths|
  {
  }

  lemma FreshFetch(paths: seq<string>, observed: map<string, Reading>)
    requires paths != []
    ensures FetchedOk(paths, Reloading(0), map[], observed) && FetchedOk(paths, Watching(0), map[], observed)
  {
  }

  lemma ReloadKeepsInv(w: World, paths: seq<string>, t: nat, s: State)
    requires Consistent(w) && Inv(w, paths, t, s) && s.pc.Reloading?
    ensures Inv(w, paths, t + 1, Step(w, paths, t, s))
  {
    PositionInRange(w, paths, t, s);
    hide AllPast, Past, Consistent, StatesOk, FetchedOk, SameIndex, AllRead, Observe, Reported, StateOf;
    var i, p := s.pc.next, paths[s.pc.next];
    var fetched := s.fetched[p := w.store(t, p)];
    PastLater(w, t, s.observed);
    PastLater(w, t, s.loaded);
    PastExtended(w, t, s.fetched, p);
    NothingRead(w, t + 1);
    if p in s.observed {
      ReadIsNewer(w, t, s.observed, p);
    }
    FetchKeeps(paths, i, s.fetched, s.observed, w.store(t, p));
    FreshFetch(paths, s.observed);
    var next := Step(w, paths, t, s);
    if w.fails(t) {
      assert next == s.(pc := Reloading(0), fetched := map[]);
    } else if i + 1 < |paths| {
      assert next == s.(pc := Reloading(i + 1), fetched := fetched);
    } else if w.rejects(t) {
      assert next == s.(pc := Reloading(0), fetched := map[]);
    } else {
      assert next == s.(pc := Watching(0), loaded := fetched, fetched := map[]);
    }
    hide Step;
  }

  lemma StepKeepsInv(w: World, paths: seq<string>, t: nat, s: State)
    requires Consistent(w) && Inv(w, paths, t, s)
    ensures Inv(w, paths, t + 1, Step(w, paths, t, s))
  {
    hide Inv, Step, Consistent;
    if s.pc.Watching? {
      WatchKeepsInv(w, paths, t, s);
    } else {
      ReloadKeepsInv(w, paths, t, s);
    }
  }

  // ----- no observed change is lost -----

  /** The served content is that of the reading or a later one, or absent like it. */
  predicate Current(loaded: Reading, observed: Reading) {
    loaded.version >= observed.version || (loaded.Missing? && observed.Missing?)
  }

  /** What is served of an observed path is what was observed, or better. */
  predicate Kept(s: State, p: string)
    requires p in s.observed
  {
    p in s.loaded && Current(s.loaded[p], s.observed[p])
  }

  /** Every observed path is served as last observed, or better; or else a reload is pending. */
  ghost predicate NothingLost(s: State) {
    s.pc.Watching? ==> forall p :: p in s.observed ==> Kept(s, p)
  }

  /** The three readings that slip through although what is served is older: the first one of
      a path, which only records a baseline; one without an index; and that of a key gone
      again that was absent when last watched but present when last loaded. */
  predicate Slips(s: State, p: string, r: Reading) {
    var before := StateOf(s.states, p);
    && p in s.loaded && !Current(s.loaded[p], r)
    && (|| !before.seen
        || (before.present && r.Present? && r.index == 0)
        || (before.seen && !before.present && r.Missing?))
  }

  /** The read that the next step makes slips through. */
  predicate SlipsAt(w: World, paths: seq<string>, t: nat, s: State) {
    && s.pc.Watching? && s.pc.next < |paths| && !w.fails(t)
    && Slips(s, paths[s.pc.next], w.store(t, paths[s.pc.next]))
  }

  /** What is served of the path is older than what was observed of it. */
  predicate Behind(s: State, p: string) {
    p in s.observed && !Kept(s, p)
  }

  /** An unreported reading leaves a path behind exactly when it slips or found it behind. */
  lemma ReadBehind(s: State, next: State, p: string, r: Reading)
    requires next.observed == s.observed[p := r] && next.loaded == s.loaded
    requires p in s.loaded && s.loaded[p].version <= r.version
    requires s.loaded[p].version == r.version ==> s.loaded[p].Missing? == r.Missing?
    requires (p in s.observed) == (p in s.states)
    requires p in s.observed ==>
      && s.states[p] == Recorded(s.observed[p]) && s.observed[p].version <= r.version
      && (s.observed[p].version == r.version ==> s.observed[p].Missing? == r.Missing?)
      && (SameIndex(s.observed[p], r) ==> s.observed[p].version == r.version)
    requires !Reported(StateOf(s.states, p), r)
    ensures Behind(next, p) <==> Slips(s, p, r) || Behind(s, p)
  {
  }

  lemma OthersBehind(s: State, next: State, p: string, r: Reading, q: string)
    requires next.observed == s.observed[p := r] && next.loaded == s.loaded && q != p
    ensures Behind(next, q) == Behind(s, q)
  {
  }

  /** What one unreported watch read does to each path. */
  lemma WatchBehind(w: World, paths: seq<string>, t: nat, s: State, q: string)
    requires Consistent(w) && Inv(w, paths, t, s) && s.pc.Watching? && Step(w, paths, t, s).pc.Watching?
    ensures s.pc.next < |paths| && !w.fails(t)
    ensures Behind(Step(w, paths, t, s), q) <==> Behind(s, q) || (q == paths[s.pc.next] && SlipsAt(w, paths, t, s))
  {
    PositionInRange(w, paths, t, s);
    var p := paths[s.pc.next];
    var r, next := w.store(t, p), Step(w, paths, t, s);
    if p in s.observed {
      ReadIsNewer(w, t, s.observed, p);
    }
    assert p in s.loaded;
    ReadIsNewer(w, t, s.loaded, p);
    hide Past, AllPast, Consistent, FetchedOk, AllRead;
    if q == p {
      ReadBehind(s, next, p, r);
    } else {
      OthersBehind(s, next, p, r, q);
    }
    hide StatesOk, Slips, Behind, Reported, Recorded;
  }

  lemma SlipIsSilent(w: World, paths: seq<string>, t: nat, s: State)
    ensures SlipsAt(w, paths, t, s) ==> Step(w, paths, t, s).pc.Watching?
  {
    hide Current;
  }

  /** A watch step loses an observed change exactly when its reading slips through. */
  lemma WatchLosesExactlySlips(w: World, paths: seq<string>, t: nat, s: State)
    requires Consistent(w) && Inv(w, paths, t, s) && NothingLost(s) && s.pc.Watching?
    ensures NothingLost(Step(w, paths, t, s)) <==> !SlipsAt(w, paths, t, s)
  {
    var next := Step(w, paths, t, s);
    SlipIsSilent(w, paths, t, s);
    if next.pc.Watching? {
      forall q
        ensures Behind(next, q) <==> Behind(s, q) || (q == paths[s.pc.next] && SlipsAt(w, paths, t, s))
      {
        WatchBehind(w, paths, t, s, q);
      }
      WatchBehind(w, paths, t, s, "");
      assert !Behind(s, paths[s.pc.next]);
      hide Step, SlipsAt, Kept, Inv, Consistent;
    }
  }

  lemma FetchServesObserved(paths: seq<string>, s: State, r: Reading)
    requires s.pc.Reloading? && FetchedOk(paths, s.pc, s.fetched, s.observed) && s.pc.next + 1 == |paths|
    requires StatesOk(paths, s.states, s.observed)
    requires paths[s.pc.next] in s.observed ==> s.observed[paths[s.pc.next]].version <= r.version
    ensures forall q :: q in s.observed ==>
      Kept(s.(loaded := s.fetched[paths[s.pc.next] := r], pc := Watching(0), fetched := map[]), q)
  {
    hide Recorded;
    forall q | q in s.observed
      ensures q in s.fetched || q == paths[s.pc.next]
    {
      var k :| 0 <= k < |paths| && paths[k] == q;
    }
  }

  /** A successful reload makes up for everything observed before it. */
  lemma ReloadLosesNothing(w: World, paths: seq<string>, t: nat, s: State)
    requires Consistent(w) && Inv(w, paths, t, s) && s.pc.Reloading?
    ensures NothingLost(Step(w, paths, t, s))
  {
    var p := paths[s.pc.next];
    hide Past, AllPast, Consistent, AllRead, SameIndex;
    if p in s.observed {
      ReadIsNewer(w, t, s.observed, p);
    }
    if s.pc.next + 1 == |paths| {
      FetchServesObserved(paths, s, w.store(t, p));
    }
    hide StatesOk, FetchedOk, Kept;
  }

  /** The watch starts, at tick `start`, after an initial load of every path. */
  ghost predicate Ready(w: World, paths: seq<string>, start: nat, loaded: map<string, Reading>) {
    Consistent(w) && paths != [] && AllPast(w, start, loaded) && AllRead(paths, loaded)
  }

  lemma {:induction false} RunInv(w: World, paths: seq<string>, start: nat, loaded: map<string, Reading>, n: nat)
    requires Ready(w, paths, start, loaded)
    ensures Inv(w, paths, start + n, Run(w, paths, start, loaded, n))
  {
    hide AllPast, Consistent, AllRead, Step;
    if n == 0 {
      NothingRead(w, start);
    } else {
      hide Inv;
      RunInv(w, paths, start, loaded, n - 1);
      StepKeepsInv(w, paths, start + n - 1, Run(w, paths, start, loaded, n - 1));
    }
  }

  /** No reading of the first `n` slips through. */
  ghost predicate NoSlip(w: World, paths: seq<string>, start: nat, loaded: map<string, Reading>, n: nat) {
    forall k :: 0 <= k < n ==> !SlipsAt(w, paths, start + k, Run(w, paths, start, loaded, k))
  }

  lemma StartLosesNothing(w: World, paths: seq<string>, start: nat, loaded: map<string, Reading>)
    ensures NothingLost(Run(w, paths, start, loaded, 0))
  {
  }

  /** A reading that slips through does lose a change: the condition is exact. */
  lemma StepLosesExactlySlips(w: World, paths: seq<string>, start: nat, loaded: map<string, Reading>, n: nat)
    requires Ready(w, paths, start, loaded) && NothingLost(Run(w, paths, start, loaded, n))
    ensures NothingLost(Run(w, paths, start, loaded, n + 1)) <==>
      !SlipsAt(w, paths, start + n, Run(w, paths, start, loaded, n))
  {
    hide Step, Inv, AllPast, Consistent, AllRead, NothingLost, Slips;
    var s := Run(w, paths, start, loaded, n);
    RunInv(w, paths, start, loaded, n);
    if s.pc.Watching? {
      WatchLosesExactlySlips(w, paths, start + n, s);
    } else {
      ReloadLosesNothing(w, paths, start + n, s);
    }
  }

  /** No lost update, whatever fails, is deleted or comes back, and however often reloading
      fails: in every reachable state, as long as no reading slipped through. */
  lemma {:induction false} NoLostUpdate(w: World, paths: seq<string>, start: nat, loaded: map<string, Reading>, n: nat)
    requires Ready(w, paths, start, loaded) && NoSlip(w, paths, start, loaded, n)
    ensures NothingLost(Run(w, paths, start, loaded, n))
  {
    hide Ready, SlipsAt, Run, NothingLost;
    if n == 0 {
      StartLosesNothing(w, paths, start, loaded);
    } else {
      assert NoSlip(w, paths, start, loaded, n - 1);
      NoLostUpdate(w, paths, start, loaded, n - 1);
      StepLosesExactlySlips(w, paths, start, loaded, n - 1);
    }
  }

  /** Every present key comes with an index, and a key that is gone stays gone. */
  ghost predicate Orderly(w: World) {
    && (forall t: nat, p: string :: w.store(t, p).Present? ==> w.store(t, p).index != 0)
    && (forall t: nat, u: nat, v: nat, p: string :: t <= u <= v && w.store(t, p).Missing? && w.store(v, p).Missing? ==>
          w.store(u, p).Missing?)
  }

  lemma IndexGiven(w: World, t: nat, p: string)
    requires Orderly(w)
    ensures w.store(t, p).Present? ==> w.store(t, p).index != 0
  {
  }

  /** A key absent when watched and absent now was absent when loaded in between. */
  lemma AbsentBetween(w: World, t: nat, p: string, observed: Reading, loaded: Reading)
    requires Consistent(w) && Orderly(w) && Past(w, t, p, observed) && Past(w, t, p, loaded)
    requires observed.version <= loaded.version
    ensures observed.Missing? && w.store(t, p).Missing? ==> loaded.Missing?
  {
    var u: nat :| u < t && observed == w.store(u, p);
    var v: nat :| v < t && loaded == w.store(v, p);
    if v <= u {
      assert w.store(v, p).version <= w.store(u, p).version;
    }
  }

  /** In an orderly store a reading slips through only when it is the first of its path, or
      finds it behind already. */
  lemma OrderlySlips(w: World, paths: seq<string>, t: nat, s: State)
    requires Consistent(w) && Orderly(w) && Inv(w, paths, t, s)
    ensures SlipsAt(w, paths, t, s) ==> paths[s.pc.next] !in s.observed || Behind(s, paths[s.pc.next])
  {
    PositionInRange(w, paths, t, s);
    var p := paths[s.pc.next];
    hide Reported, Orderly;
    IndexGiven(w, t, p);
    if p in s.observed && Kept(s, p) {
      assert Past(w, t, p, s.observed[p]) && Past(w, t, p, s.loaded[p]);
      if s.observed[p].version <= s.loaded[p].version {
        AbsentBetween(w, t, p, s.observed[p], s.loaded[p]);
      }
      ReadIsNewer(w, t, s.loaded, p);
    }
  }

  // ----- exactly what is lost, in every run -----

  /** The read after `k` others is one of `p` that slips through. */
  predicate SlipsOn(w: World, paths: seq<string>, start: nat, loaded: map<string, Reading>, p: string, k: nat) {
    var s := Run(w, paths, start, loaded, k);
    SlipsAt(w, paths, start + k, s) && paths[s.pc.next] == p
  }

  /** The read after `k` others completes a reload. */
  predicate CompletesAt(w: World, paths: seq<string>, start: nat, loaded: map<string, Reading>, k: nat) {
    Run(w, paths, start, loaded, k).pc.Reloading? && Run(w, paths, start, loaded, k + 1).pc.Watching?
  }

  ghost predicate LostSince(w: World, paths: seq<string>, start: nat, loaded: map<string, Reading>, p: string,
      k: nat, n: nat)
  {
    SlipsOn(w, paths, start, loaded, p, k) && forall j :: k < j < n ==> !CompletesAt(w, paths, start, loaded, j)
  }

  /** A reading of `p` slipped through, and no reload has completed since. */
  ghost predicate Lost(w: World, paths: seq<string>, start: nat, loaded: map<string, Reading>, p: string, n: nat) {
    exists k :: 0 <= k < n && LostSince(w, paths, start, loaded, p, k, n)
  }

  /** It was the first reading of `p` that slipped through. */
  ghost predicate LostAtFirst(w: World, paths: seq<string>, start: nat, loaded: map<string, Reading>, p: string,
      n: nat)
  {
    exists k ::
      && 0 <= k < n && LostSince(w, paths, start, loaded, p, k, n)
      && p !in Run(w, paths, start, loaded, k).observed
  }

  lemma LostNext(w: World, paths: seq<string>, start: nat, loaded: map<string, Reading>, p: string, n: nat)
    ensures Lost(w, paths, start, loaded, p, n + 1) <==>
      || SlipsOn(w, paths, start, loaded, p, n)
      || (Lost(w, paths, start, loaded, p, n) && !CompletesAt(w, paths, start, loaded, n))
    ensures LostAtFirst(w, paths, start, loaded, p, n) && !CompletesAt(w, paths, start, loaded, n) ==>
      LostAtFirst(w, paths, start, loaded, p, n + 1)
  {
    hide SlipsOn, CompletesAt, Run;
    if SlipsOn(w, paths, start, loaded, p, n) {
      assert LostSince(w, paths, start, loaded, p, n, n + 1);
    }
    if !CompletesAt(w, paths, start, loaded, n) {
      forall k | 0 <= k < n && LostSince(w, paths, start, loaded, p, k, n)
        ensures LostSince(w, paths, start, loaded, p, k, n + 1)
      {
      }
    }
    if Lost(w, paths, start, loaded, p, n + 1) && !SlipsOn(w, paths, start, loaded, p, n) {
      var k :| 0 <= k < n + 1 && LostSince(w, paths, start, loaded, p, k, n + 1);
      assert LostSince(w, paths, start, loaded, p, k, n) && !CompletesAt(w, paths, start, loaded, n);
    }
  }

  lemma NothingBehindAtStart(loaded: map<string, Reading>, p: string)
    ensures !Behind(Start(loaded), p)
  {
  }

  lemma NothingLostAtStart(w: World, paths: seq<string>, start: nat, loaded: map<string, Reading>, p: string)
    ensures !Lost(w, paths, start, loaded, p, 0)
  {
  }

  lemma ReadyIsConsistent(w: World, paths: seq<string>, start: nat, loaded: map<string, Reading>)
    requires Ready(w, paths, start, loaded)
    ensures Consistent(w)
  {
  }

  lemma SlipsWhileWatching(w: World, paths: seq<string>, t: nat, s: State)
    ensures SlipsAt(w, paths, t, s) ==> s.pc.Watching?
  {
  }

  lemma NothingBehind(s: State, p: string)
    ensures NothingLost(s) && s.pc.Watching? ==> !Behind(s, p)
  {
  }

  /** In every run, whatever fails, changes or comes back: while no reload is pending, what is
      served of a path is older than what was last observed of it exactly when a reading of it
      slipped through and no reload has completed since. */
  lemma {:induction false} LostExactly(w: World, paths: seq<string>, start: nat, loaded: map<string, Reading>,
      p: string, n: nat)
    requires Ready(w, paths, start, loaded)
    ensures
      var s := Run(w, paths, start, loaded, n);
      s.pc.Watching? ==> (Behind(s, p) <==> Lost(w, paths, start, loaded, p, n))
  {
    hide Behind, SlipsAt, Ready, Lost, Step;
    if n == 0 {
      NothingBehindAtStart(loaded, p);
      assert !Lost(w, paths, start, loaded, p, 0) by {
        NothingLostAtStart(w, paths, start, loaded, p);
      }
    } else {
      var s, t := Run(w, paths, start, loaded, n - 1), start + n - 1;
      assert Run(w, paths, start, loaded, n) == Step(w, paths, t, s);
      LostExactly(w, paths, start, loaded, p, n - 1);
      LostNext(w, paths, start, loaded, p, n - 1);
      RunInv(w, paths, start, loaded, n - 1);
      assert Consistent(w) by {
        ReadyIsConsistent(w, paths, start, loaded);
      }
      if s.pc.Watching? && Step(w, paths, t, s).pc.Watching? {
        WatchBehind(w, paths, t, s, p);
      } else if s.pc.Reloading? {
        ReloadLosesNothing(w, paths, t, s);
        SlipsWhileWatching(w, paths, t, s);
        NothingBehind(Step(w, paths, t, s), p);
      }
      hide Run, Inv, Consistent, NothingLost;
    }
  }

  lemma FirstSlip(w: World, paths: seq<string>, start: nat, loaded: map<string, Reading>, p: string, n: nat)
    requires SlipsOn(w, paths, start, loaded, p, n) && p !in Run(w, paths, start, loaded, n).observed
    ensures LostAtFirst(w, paths, start, loaded, p, n + 1)
  {
    hide SlipsOn, Run;
    assert LostSince(w, paths, start, loaded, p, n, n + 1);
  }

  /** In an orderly store only a first reading is ever to blame. */
  lemma {:induction false} OrderlyLost(w: World, paths: seq<string>, start: nat, loaded: map<string, Reading>,
      p: string, n: nat)
    requires Ready(w, paths, start, loaded) && Orderly(w)
    ensures Lost(w, paths, start, loaded, p, n) ==> LostAtFirst(w, paths, start, loaded, p, n)
  {
    hide Behind, SlipsAt, Ready, Lost, LostAtFirst, Orderly, Step, Run;
    if n == 0 {
      NothingLostAtStart(w, paths, start, loaded, p);
    } else {
      var s := Run(w, paths, start, loaded, n - 1);
      OrderlyLost(w, paths, start, loaded, p, n - 1);
      LostNext(w, paths, start, loaded, p, n - 1);
      if SlipsOn(w, paths, start, loaded, p, n - 1) {
        RunInv(w, paths, start, loaded, n - 1);
        ReadyIsConsistent(w, paths, start, loaded);
        SlipsWhileWatching(w, paths, start + n - 1, s);
        OrderlySlips(w, paths, start + n - 1, s);
        LostExactly(w, paths, start, loaded, p, n - 1);
        if p !in s.observed {
          FirstSlip(w, paths, start, loaded, p, n - 1);
        }
      }
      hide Inv, Consistent, SlipsOn;
    }
  }

  /** So in an orderly store, while no reload is pending, an observed path is served as last
      observed, or better, exactly when what was served at its first reading was no older than
      that reading, or a reload has completed since. */
  lemma OrderlyLosesOnlyBaselines(w: World, paths: seq<string>, start: nat, loaded: map<string, Reading>,
      p: string, n: nat)
    requires Ready(w, paths, start, loaded) && Orderly(w)
    ensures
      var s := Run(w, paths, start, loaded, n);
      s.pc.Watching? && p in s.observed ==> (Kept(s, p) <==> !LostAtFirst(w, paths, start, loaded, p, n))
  {
    LostExactly(w, paths, start, loaded, p, n);
    OrderlyLost(w, paths, start, loaded, p, n);
    hide Ready, Orderly, Run, LostSince, Kept;
  }

  // ----- a deletion that is lost -----

  /** A key absent at first, there when a failed watch made the loop reload, and gone again. */
  function BlipWorld(): World {
    World((t: nat, p: string) => if t < 3 then Missing(0) else if t == 3 then Present(1, 7) else Missing(2),
          t => t == 2, t => false)
  }

  /** The loop sits still, serving what it loaded in between. */
  predicate ServesGhost(s: State, p: string) {
    && s.pc == Watching(0) && s.loaded == map[p := Present(1, 7)]
    && s.states == map[p := WatchState(true, false, 0)] && s.observed == map[p := Missing(2)]
  }

  lemma BlipReady(p: string)
    ensures Ready(BlipWorld(), [p], 1, map[p := Missing(0)])
  {
    var w := BlipWorld();
    assert Past(w, 1, p, Missing(0)) by {
      assert Missing(0) == w.store(0, p);
    }
  }

  lemma BlipRun(p: string)
    ensures ServesGhost(Run(BlipWorld(), [p], 1, map[p := Missing(0)], 4), p)
  {
    var w, loaded := BlipWorld(), map[p := Missing(0)];
    var s0 := Start(loaded);
    var s1 := Step(w, [p], 1, s0);
    assert s1.pc == Watching(0) && s1.states == map[p := WatchState(true, false, 0)]
      && s1.observed == map[p := Missing(0)];
    var s2 := Step(w, [p], 2, s1);
    assert s2 == s1.(pc := Reloading(0));
    var s3 := Step(w, [p], 3, s2);
    assert s3.pc == Watching(0) && s3.states == s1.states && s3.observed == s1.observed
      && s3.loaded == map[p := Present(1, 7)];
    var s4 := Step(w, [p], 4, s3);
    hide Step;
    assert Run(w, [p], 1, loaded, 0) == s0;
    assert Run(w, [p], 1, loaded, 1) == s1;
    assert Run(w, [p], 1, loaded, 2) == s2;
    assert Run(w, [p], 1, loaded, 3) == s3;
  }

  lemma BlipStep(p: string, t: nat, s: State)
    requires t > 3 && ServesGhost(s, p)
    ensures ServesGhost(Step(BlipWorld(), [p], t, s), p)
  {
  }

  /** The deletion is never noticed: the configuration of the deleted key is served for good. */
  lemma {:induction false} DeletionCanBeLost(p: string, n: nat)
    requires n >= 4
    ensures Ready(BlipWorld(), [p], 1, map[p := Missing(0)])
    ensures ServesGhost(Run(BlipWorld(), [p], 1, map[p := Missing(0)], n), p)
    ensures BlipWorld().store(n, p) == Missing(2)
  {
    hide ServesGhost, Step;
    BlipReady(p);
    if n == 4 {
      BlipRun(p);
    } else {
      DeletionCanBeLost(p, n - 1);
      BlipStep(p, n, Run(BlipWorld(), [p], 1, map[p := Missing(0)], n - 1));
      hide BlipWorld;
    }
  }

  // ----- a change that is lost for want of an index -----

  /** A key that changes once, and from then on is answered without an index. */
  function UnindexedWorld(): World {
    World((t: nat, p: string) => if t < 2 then Present(1, 7) else Present(2, 0), t => false, t => false)
  }

  /** The loop sits still, serving what it first loaded. */
  predicate ServesOld(s: State, p: string) {
    && s.pc == Watching(0) && s.loaded == map[p := Present(1, 7)]
    && s.states == map[p := WatchState(true, true, 0)] && s.observed == map[p := Present(2, 0)]
  }

  lemma UnindexedReady(p: string)
    ensures Ready(UnindexedWorld(), [p], 1, map[p := Present(1, 7)])
  {
    var w := UnindexedWorld();
    assert Past(w, 1, p, Present(1, 7)) by {
      assert Present(1, 7) == w.store(0, p);
    }
  }

  lemma UnindexedRun(p: string)
    ensures ServesOld(Run(UnindexedWorld(), [p], 1, map[p := Present(1, 7)], 2), p)
  {
    var w, loaded := UnindexedWorld(), map[p := Present(1, 7)];
    var s0 := Start(loaded);
    var s1 := Step(w, [p], 1, s0);
    assert s1.pc == Watching(0) && s1.states == map[p := WatchState(true, true, 7)] && s1.observed == loaded;
    assert s1.loaded == loaded;
    var s2 := Step(w, [p], 2, s1);
    assert ServesOld(s2, p);
    hide Step, ServesOld;
    assert Run(w, [p], 1, loaded, 0) == s0;
    assert Run(w, [p], 1, loaded, 1) == s1;
  }

  lemma UnindexedStep(p: string, t: nat, s: State)
    requires t >= 2 && ServesOld(s, p)
    ensures ServesOld(Step(UnindexedWorld(), [p], t, s), p)
  {
  }

  /** The change is read at every tick and never reloaded. */
  lemma {:induction false} ChangeCanBeLost(p: string, n: nat)
    requires n >= 2
    ensures Ready(UnindexedWorld(), [p], 1, map[p := Present(1, 7)])
    ensures ServesOld(Run(UnindexedWorld(), [p], 1, map[p := Present(1, 7)], n), p)
    ensures UnindexedWorld().store(n, p) == Present(2, 0)
  {
    hide ServesOld, Step;
    UnindexedReady(p);
    if n == 2 {
      UnindexedRun(p);
    } else {
      ChangeCanBeLost(p, n - 1);
      UnindexedStep(p, n, Run(UnindexedWorld(), [p], 1, map[p := Present(1, 7)], n - 1));
      hide UnindexedWorld;
    }
  }

  // ----- a change before the baseline that is lost -----

  /** A key written once, between the initial load and the first watch read. */
  function EarlyWorld(): World {
    World((t: nat, p: string) => if t < 1 then Present(1, 7) else Present(2, 8), t => false, t => false)
  }

  /** The loop sits still, serving what was there before the write. */
  predicate ServesEarlier(s: State, p: string) {
    && s.pc == Watching(0) && s.loaded == map[p := Present(1, 7)]
    && s.states == map[p := WatchState(true, true, 8)] && s.observed == map[p := Present(2, 8)]
  }

  lemma EarlyReady(p: string)
    ensures Ready(EarlyWorld(), [p], 1, map[p := Present(1, 7)]) && Orderly(EarlyWorld())
  {
    var w := EarlyWorld();
    assert Past(w, 1, p, Present(1, 7)) by {
      assert Present(1, 7) == w.store(0, p);
    }
  }

  lemma EarlyRun(p: string)
    ensures ServesEarlier(Run(EarlyWorld(), [p], 1, map[p := Present(1, 7)], 1), p)
  {
    var w, loaded := EarlyWorld(), map[p := Present(1, 7)];
    var s1 := Step(w, [p], 1, Start(loaded));
    assert ServesEarlier(s1, p);
    hide Step, ServesEarlier;
    assert Run(w, [p], 1, loaded, 0) == Start(loaded);
  }

  lemma EarlyStep(p: string, t: nat, s: State)
    requires t >= 1 && ServesEarlier(s, p)
    ensures ServesEarlier(Step(EarlyWorld(), [p], t, s), p)
  {
  }

  /** In an orderly store, without any failure, a write before the first watch read can become
      the baseline and never be loaded. */
  lemma {:induction false} EarlyWriteCanBeLost(p: string, n: nat)
    requires n >= 1
    ensures Ready(EarlyWorld(), [p], 1, map[p := Present(1, 7)]) && Orderly(EarlyWorld())
    ensures ServesEarlier(Run(EarlyWorld(), [p], 1, map[p := Present(1, 7)], n), p)
    ensures EarlyWorld().store(n, p) == Present(2, 8)
  {
    hide ServesEarlier, Step;
    EarlyReady(p);
    if n == 1 {
      EarlyRun(p);
    } else {
      EarlyWriteCanBeLost(p, n - 1);
      EarlyStep(p, n, Run(EarlyWorld(), [p], 1, map[p := Present(1, 7)], n - 1));
      hide EarlyWorld;
    }
  }

  // ----- convergence -----

  /** From tick `quiet` on, reads succeed, configurations are valid and the store is still. */
  ghost predicate Calm(w: World, quiet: nat) {
    && (forall t: nat :: t >= quiet ==> !w.fails(t) && !w.rejects(t))
    && (forall t: nat, p: string :: t >= quiet ==> w.store(t, p) == w.store(quiet, p))
  }

  /** The path's recorded reading is not what the store holds. */
  predicate Stale(w: World, quiet: nat, p: string, observed: map<string, Reading>) {
    p !in observed || observed[p] != w.store(quiet, p)
  }

  function StaleCount(w: World, quiet: nat, paths: seq<string>, observed: map<string, Reading>): nat {
    if paths == [] then 0
    else StaleCount(w, quiet, paths[1..], observed) + if Stale(w, quiet, paths[0], observed) then 1 else 0
  }

  lemma {:induction false} ReadLowersCount(w: World, quiet: nat, paths: seq<string>, observed: map<string, Reading>,
      p: string)
    ensures
      var before, after :=
        StaleCount(w, quiet, paths, observed), StaleCount(w, quiet, paths, observed[p := w.store(quiet, p)]);
      after <= before && (p in paths && Stale(w, quiet, p, observed) ==> after < before)
  {
    if paths != [] {
      ReadLowersCount(w, quiet, paths[1..], observed, p);
    }
  }

  lemma {:induction false} CountIsExact(w: World, quiet: nat, paths: seq<string>, observed: map<string, Reading>)
    ensures StaleCount(w, quiet, paths, observed) <= |paths|
    ensures StaleCount(w, quiet, paths, observed) == 0 <==> forall p :: p in paths ==> !Stale(w, quiet, p, observed)
  {
    if paths != [] {
      CountIsExact(w, quiet, paths[1..], observed);
      assert forall p :: p in paths <==> p == paths[0] || p in paths[1..];
    }
  }

  /** How long it takes at most to reach the next stale path. */
  function Distance(w: World, quiet: nat, paths: seq<string>, s: State): int {
    match s.pc
    case Reloading(i) => 3 * |paths| - i
    case Watching(i) =>
      if i <= |paths| && StaleCount(w, quiet, paths[i..], s.observed) > 0 then |paths| - i else 2 * |paths| - i
  }

  function Stages(n: nat, size: nat): nat {
    if n == 0 then 0 else Stages(n - 1, size) + 4 * size
  }

  function Unsettled(w: World, quiet: nat, paths: seq<string>, s: State): int {
    var n := StaleCount(w, quiet, paths, s.observed);
    if n == 0 && s.pc.Watching? then 0 else Stages(n, |paths|) + Distance(w, quiet, paths, s)
  }

  lemma {:induction false} StagesGrow(n: nat, m: nat, size: nat)
    requires n < m
    ensures Stages(n, size) + 4 * size <= Stages(m, size)
  {
    if n < m - 1 {
      StagesGrow(n, m - 1, size);
    }
  }

  /** Reading an unchanged content again reports nothing. */
  lemma FreshIsNotReported(r: Reading)
    ensures !Reported(Recorded(r), r)
  {
  }

  /** A read of a stale path takes it off the count. */
  lemma StaleRead(w: World, paths: seq<string>, quiet: nat, s: State, next: State)
    requires s.pc.Watching? && s.pc.next < |paths| && Stale(w, quiet, paths[s.pc.next], s.observed)
    requires next.observed == s.observed[paths[s.pc.next] := w.store(quiet, paths[s.pc.next])]
    requires next.pc == Reloading(0) || next.pc == Watching(if s.pc.next + 1 == |paths| then 0 else s.pc.next + 1)
    ensures 0 <= Unsettled(w, quiet, paths, next) < Unsettled(w, quiet, paths, s)
  {
    hide StaleCount, Stages;
    ReadLowersCount(w, quiet, paths, s.observed, paths[s.pc.next]);
    StagesGrow(StaleCount(w, quiet, paths, next.observed), StaleCount(w, quiet, paths, s.observed), |paths|);
  }

  /** A read of any other path brings the next stale one closer. */
  lemma FreshRead(w: World, paths: seq<string>, quiet: nat, s: State, next: State)
    requires s.pc.Watching? && s.pc.next < |paths| && !Stale(w, quiet, paths[s.pc.next], s.observed)
    requires next.observed == s.observed && next.pc == Watching(if s.pc.next + 1 == |paths| then 0 else s.pc.next + 1)
    ensures 0 <= Unsettled(w, quiet, paths, next)
    ensures Unsettled(w, quiet, paths, s) > 0 ==> Unsettled(w, quiet, paths, next) < Unsettled(w, quiet, paths, s)
    ensures Unsettled(w, quiet, paths, s) == 0 ==> Unsettled(w, quiet, paths, next) == 0
  {
    hide Stages, Stale;
    var i := s.pc.next;
    assert paths[i..][1..] == paths[i + 1..] && paths[i..][0] == paths[i] && paths[0..] == paths;
    assert StaleCount(w, quiet, paths[i..], s.observed) == StaleCount(w, quiet, paths[i + 1..], s.observed);
    if i + 1 == |paths| {
      assert paths[i + 1..] == [];
    }
  }

  lemma ReloadRead(w: World, paths: seq<string>, quiet: nat, s: State, next: State)
    requires s.pc.Reloading? && s.pc.next < |paths| && next.observed == s.observed
    requires next.pc == if s.pc.next + 1 == |paths| then Watching(0) else Reloading(s.pc.next + 1)
    ensures 0 <= Unsettled(w, quiet, paths, next) < Unsettled(w, quiet, paths, s)
  {
    hide Stages, StaleCount;
    assert paths[0..] == paths;
  }

  lemma ReloadingIsUnsettled(w: World, paths: seq<string>, quiet: nat, s: State)
    requires s.pc.Reloading? && s.pc.next < |paths|
    ensures Unsettled(w, quiet, paths, s) > 0
  {
    hide Stages, StaleCount;
  }

  lemma CalmStep(w: World, paths: seq<string>, quiet: nat, t: nat, s: State)
    requires Calm(w, quiet) && quiet <= t && Inv(w, paths, t, s)
    ensures 0 <= Unsettled(w, quiet, paths, Step(w, paths, t, s))
    ensures Unsettled(w, quiet, paths, s) > 0 ==>
      Unsettled(w, quiet, paths, Step(w, paths, t, s)) < Unsettled(w, quiet, paths, s)
    ensures Unsettled(w, quiet, paths, s) == 0 ==> Unsettled(w, quiet, paths, Step(w, paths, t, s)) == 0
  {
    var p := paths[s.pc.next];
    var next := Step(w, paths, t, s);
    assert w.store(t, p) == w.store(quiet, p) && !w.fails(t) && !w.rejects(t);
    hide Calm, AllPast, AllRead, Unsettled, FetchedOk;
    if s.pc.Reloading? {
      hide StatesOk;
      ReloadRead(w, paths, quiet, s, next);
      ReloadingIsUnsettled(w, paths, quiet, s);
    } else if Stale(w, quiet, p, s.observed) {
      hide Reported, StatesOk;
      StaleRead(w, paths, quiet, s, next);
    } else {
      FreshIsNotReported(s.observed[p]);
      assert !Reported(StateOf(s.states, p), w.store(t, p));
      hide StatesOk, Reported;
      assert next.observed == s.observed;
      FreshRead(w, paths, quiet, s, next);
    }
  }

  predicate SameContent(a: Reading, b: Reading) {
    a.version == b.version || (a.Missing? && b.Missing?)
  }

  lemma UnsettledAtMost(w: World, paths: seq<string>, t: nat, quiet: nat, s: State)
    requires Inv(w, paths, t, s)
    ensures 0 <= Unsettled(w, quiet, paths, s) <= Stages(|paths|, |paths|) + 3 * |paths|
  {
    hide AllPast, AllRead, StatesOk, Stages, StaleCount, FetchedOk, Stale;
    assert s.pc.next < |paths| by {
      PositionInRange(w, paths, t, s);
    }
    var n := StaleCount(w, quiet, paths, s.observed);
    CountIsExact(w, quiet, paths, s.observed);
    if n < |paths| {
      StagesGrow(n, |paths|, |paths|);
    }
  }

  lemma {:induction false} UnsettledRunsOut(w: World, paths: seq<string>, start: nat, loaded: map<string, Reading>,
      quiet: nat, n: nat)
    requires Ready(w, paths, start, loaded) && Calm(w, start + quiet) && n >= quiet
    ensures
      var most := Stages(|paths|, |paths|) + 3 * |paths|;
      0 <= Unsettled(w, start + quiet, paths, Run(w, paths, start, loaded, n)) <=
        if n - quiet >= most then 0 else most - (n - quiet)
    decreases n
  {
    hide Unsettled, Stages, Step, Inv, Calm, Ready;
    if n == quiet {
      hide Run;
      RunInv(w, paths, start, loaded, n);
      UnsettledAtMost(w, paths, start + n, start + quiet, Run(w, paths, start, loaded, n));
    } else {
      var s := Run(w, paths, start, loaded, n - 1);
      assert Run(w, paths, start, loaded, n) == Step(w, paths, start + n - 1, s);
      hide Run;
      UnsettledRunsOut(w, paths, start, loaded, quiet, n - 1);
      RunInv(w, paths, start, loaded, n - 1);
      CalmStep(w, paths, start + quiet, start + n - 1, s);
    }
  }

  lemma Settled(w: World, paths: seq<string>, quiet: nat, s: State)
    requires Unsettled(w, quiet, paths, s) == 0 && s.pc.next < |paths|
    ensures s.pc.Watching? && StaleCount(w, quiet, paths, s.observed) == 0
  {
  }

  lemma SettledPath(w: World, paths: seq<string>, t: nat, quiet: nat, s: State, p: string)
    requires Consistent(w) && Inv(w, paths, t, s) && p in paths && Calm(w, quiet) && quiet <= t
    requires !Stale(w, quiet, p, s.observed)
    ensures p in s.loaded && p in s.observed && s.observed[p] == w.store(t, p)
    ensures Behind(s, p) <==> !SameContent(s.loaded[p], w.store(t, p))
  {
    assert p in s.loaded;
    ReadIsNewer(w, t, s.loaded, p);
    hide AllPast, Past, Consistent, StatesOk, FetchedOk;
  }

  /** Once the store is calm, the loop settles: within a bounded number of reads it stops
      reloading, having observed what the store holds; and it then serves what the store
      holds of exactly those paths of which no reading slipped through since the last
      reload. */
  lemma Converges(w: World, paths: seq<string>, start: nat, loaded: map<string, Reading>, quiet: nat, n: nat, p: string)
    requires Ready(w, paths, start, loaded) && Calm(w, start + quiet)
    requires n >= quiet + Stages(|paths|, |paths|) + 3 * |paths|
    ensures
      var s := Run(w, paths, start, loaded, n);
      && s.pc.Watching?
      && (p in paths ==>
            && p in s.loaded && p in s.observed && s.observed[p] == w.store(start + n, p)
            && (SameContent(s.loaded[p], w.store(start + n, p)) <==> !Lost(w, paths, start, loaded, p, n)))
  {
    hide Run, Unsettled, Stages, Ready, StaleCount, Lost, Behind, Inv, Calm, Consistent, SameContent, Stale;
    var s := Run(w, paths, start, loaded, n);
    UnsettledRunsOut(w, paths, start, loaded, quiet, n);
    RunInv(w, paths, start, loaded, n);
    LostExactly(w, paths, start, loaded, p, n);
    CountIsExact(w, start + quiet, paths, s.observed);
    PositionInRange(w, paths, start + n, s);
    Settled(w, paths, start + quiet, s);
    ReadyIsConsistent(w, paths, start, loaded);
    if p in paths {
      SettledPath(w, paths, start + n, start + quiet, s, p);
    }
  }

  /** For the paths of an application, at most two, the bound is 22 reads. */
  lemma AppConverges(w: World, appName: string, start: nat, loaded: map<string, Reading>, quiet: nat, n: nat, p: string)
    requires Ready(w, LookupPaths(appName), start, loaded) && Calm(w, start + quiet) && n >= quiet + 22
    requires p in LookupPaths(appName)
    ensures
      var paths := LookupPaths(appName);
      var s := Run(w, paths, start, loaded, n);
      && s.pc.Watching? && p in s.loaded
      && (SameContent(s.loaded[p], w.store(start + n, p)) <==> !Lost(w, paths, start, loaded, p, n))
  {
    var paths := LookupPaths(appName);
    assert |paths| == 1 || |paths| == 2;
    assert Stages(1, 1) == 4 && Stages(2, 2) == 16;
    Converges(w, paths, start, loaded, quiet, n, p);
    hide *;
  }
}
