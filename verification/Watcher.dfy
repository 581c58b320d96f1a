/** The watch loop as it is written: a pass over the lookup paths that updates their watch
    states in place, and a flag for a pending reload. It follows, read by read, the machine
    of module Watch. */
module WatcherLoop {
  import opened Wrappers
  import opened Watch

  /** How a pass or a reload ends; cancellation can come before any read. */
  datatype Ending = Changed | Unchanged | Failed | Cancelled

  lemma RunSteps(w: World, paths: seq<string>, start: nat, loaded: map<string, Reading>, n: nat)
    ensures Run(w, paths, start, loaded, n + 1) == Step(w, paths, start + n, Run(w, paths, start, loaded, n))
  {
  }

  lemma WatchStep(w: World, paths: seq<string>, t: nat, s: State)
    requires s.pc.Watching? && s.pc.next < |paths|
    ensures
      var next, p := Step(w, paths, t, s), paths[s.pc.next];
      && next.loaded == s.loaded
      && next.states == (if w.fails(t) then s.states else s.states[p := Recorded(w.store(t, p))])
      && next.pc == if w.fails(t) || Reported(StateOf(s.states, p), w.store(t, p)) then Reloading(0)
                    else Watching(if s.pc.next + 1 == |paths| then 0 else s.pc.next + 1)
  {
    hide Reported, Recorded;
  }

  lemma ReloadStep(w: World, paths: seq<string>, t: nat, s: State)
    requires s.pc.Reloading? && s.pc.next < |paths|
    ensures
      var next, fetched := Step(w, paths, t, s), s.fetched[paths[s.pc.next] := w.store(t, paths[s.pc.next])];
      var finished := s.pc.next + 1 == |paths| && !w.fails(t) && !w.rejects(t);
      && next.states == s.states
      && next.loaded == (if finished then fetched else s.loaded)
      && next.pc == (if finished then Watching(0)
                     else if w.fails(t) || s.pc.next + 1 == |paths| then Reloading(0)
                     else Reloading(s.pc.next + 1))
      && (next.pc.Reloading? && next.pc.next > 0 ==> next.fetched == fetched)
  {
  }

  /** A reload starts with nothing fetched. */
  lemma {:induction false} NoneFetched(w: World, paths: seq<string>, start: nat, loaded: map<string, Reading>, n: nat)
    ensures
      var s := Run(w, paths, start, loaded, n);
      s.pc == Reloading(0) || s.pc.Watching? ==> s.fetched == map[]
  {
    if n > 0 {
      NoneFetched(w, paths, start, loaded, n - 1);
      hide Reported;
    }
  }

  class Watcher {
    const world: World
    const paths: seq<string>
    const start: nat
    const initial: map<string, Reading>
    var tick: nat
    var states: map<string, WatchState>
    var pendingReload: bool
    /** What the served configuration was loaded from. */
    var loaded: map<string, Reading>

    constructor (world: World, appName: string, start: nat, initial: map<string, Reading>)
      ensures this.world == world && this.start == start && this.initial == initial
      ensures paths == LookupPaths(appName) && tick == start && InPass(0)
    {
      this.world, this.paths, this.start, this.initial := world, LookupPaths(appName), start, initial;
      tick, states, pendingReload, loaded := start, map[], false, initial;
    }

    /** The machine after as many reads. */
    ghost function Machine(): State
      reads this
      requires start <= tick
    {
      Run(world, paths, start, initial, tick - start)
    }

    ghost predicate Follows(pc: Pc)
      reads this
    {
      && start <= tick && paths != []
      && Machine().pc == pc && Machine().states == states && Machine().loaded == loaded
      && pendingReload == pc.Reloading?
    }

    ghost predicate InPass(next: nat)
      reads this
    {
      Follows(Watching(next))
    }

    /** waitForRetryConfigChange: up to the first change, error or cancellation. */
    method WaitForChange(until: nat) returns (ending: Ending)
      requires InPass(0) && tick <= until
      modifies this`tick, this`states
      ensures old(tick) <= tick <= until && start <= tick && paths != []
      ensures Machine().states == states && Machine().loaded == loaded
      ensures ending.Cancelled? ==> tick == until && Machine().pc.Watching?
      ensures !ending.Cancelled? ==>
        tick > old(tick) && Machine().pc == if ending.Unchanged? then Watching(0) else Reloading(0)
    {
      hide Reported, Recorded, Run, Step;
      for i := 0 to |paths|
        invariant tick == old(tick) + i <= until
        invariant Machine().states == states && Machine().loaded == loaded
        invariant Machine().pc == Watching(if i == |paths| then 0 else i)
      {
        if tick == until {
          return Cancelled;
        }
        var path, now := paths[i], tick;
        ghost var before := Machine();
        tick := tick + 1;
        RunSteps(world, paths, start, initial, now - start);
        WatchStep(world, paths, now, before);
        if world.fails(now) {
          return Failed;
        }
        var state, reading := StateOf(states, path), world.store(now, path);
        states := states[path := Recorded(reading)];
        if Reported(state, reading) {
          return Changed;
        }
      }
      return Unchanged;
    }

    /** reloadRetryConfigFromStore: what is served changes only when every read succeeds and
        the configuration is valid. */
    method Reload(until: nat) returns (ending: Ending)
      requires Follows(Reloading(0)) && tick <= until
      modifies this`tick, this`loaded
      ensures old(tick) <= tick <= until && start <= tick && paths != []
      ensures Machine().states == states && Machine().loaded == loaded
      ensures ending.Cancelled? ==> tick == until && Machine().pc.Reloading?
      ensures !ending.Cancelled? ==>
        tick > old(tick) && Machine().pc == if ending.Failed? then Reloading(0) else Watching(0)
      ensures !ending.Changed? ==> loaded == old(loaded)
    {
      hide Run, Step;
      var fetched: map<string, Reading> := map[];
      for i := 0 to |paths|
        invariant tick == old(tick) + i <= until
        invariant Machine().states == states && loaded == old(loaded)
        invariant i < |paths| ==>
          Machine().pc == Reloading(i) && Machine().loaded == loaded && (i > 0 ==> Machine().fetched == fetched)
        invariant i == |paths| ==>
          if world.rejects(tick - 1) then Machine().pc == Reloading(0) && Machine().loaded == loaded
          else Machine().pc == Watching(0) && Machine().loaded == fetched
        invariant i == 0 ==> fetched == map[]
      {
        if tick == until {
          return Cancelled;
        }
        var path, now := paths[i], tick;
        ghost var before := Machine();
        tick := tick + 1;
        RunSteps(world, paths, start, initial, now - start);
        ReloadStep(world, paths, now, before);
        if world.fails(now) {
          return Failed;
        }
        if i == 0 {
          NoneFetched(world, paths, start, initial, now - start);
        }
        fetched := fetched[path := world.store(now, path)];
      }
      if world.rejects(tick - 1) {
        return Failed;
      }
      loaded := fetched;
      return Changed;
    }

    /** runRetryConfigBlockingReloadLoop, cancelled at tick `until`: it is then in the state of
        the machine after as many reads. */
    method RunUntil(until: nat)
      requires InPass(0) && tick <= until
      modifies this`tick, this`states, this`pendingReload, this`loaded
      ensures tick == until
      ensures var s := Run(world, paths, start, initial, until - start);
        s.states == states && s.loaded == loaded && s.pc.Reloading? == pendingReload
    {
      hide Run;
      while true
        invariant tick <= until
        invariant if pendingReload then Follows(Reloading(0)) else InPass(0)
        decreases until - tick
      {
        if pendingReload {
          var ending := Reload(until);
          if ending.Cancelled? {
            return;
          }
          if ending.Failed? {
            continue;
          }
          pendingReload := false;
          continue;
        }
        var ending := WaitForChange(until);
        if ending.Cancelled? {
          return;
        }
        if ending.Failed? {
          pendingReload := true;
          continue;
        }
        if ending.Unchanged? {
          continue;
        }
        pendingReload := true;
      }
    }
  }
}
