/** internal/agent/launcher.go, Run and the two supervise functions as the code runs them: every
    pass through their loops and selects is a run of the launcher's state machine, whatever the
    child, the health watcher and the service manager do in between. */
module LauncherLoop {
  import opened Text
  import L = Launcher

  datatype Outcome = Healthy | Unhealthy | Shutdown | PendingUpdate | Exited | Undecided

  /** Moves the launcher does not make itself. */
  predicate IsWorld(e: L.Event) {
    || e.PollHealth? || e.Deadline?
    || e.Commit? || e.BeginActivate? || e.EndActivate? || e.AskRestart? || e.Exit?
    || e.Cancel? || e.Deprovision?
  }

  predicate SamePlace(a: L.Pc, b: L.Pc) {
    a == b || (a.AwaitHealth? && b.AwaitHealth? && a.v == b.v)
  }

  lemma WorldStaysInPlace(s: L.State, e: L.Event)
    requires IsWorld(e)
    ensures SamePlace(s.pc, L.Next(s, e).pc) && (s.deprovisioned ==> L.Next(s, e).deprovisioned)
  {
  }

  lemma LogKept(s: L.State, e: L.Event)
    ensures |L.Next(s, e).log| >= |s.log|
  {
  }

  lemma {:induction false} RunSnoc(s: L.State, es: seq<L.Event>, e: L.Event)
    ensures L.Run(s, es + [e]) == L.Next(L.Run(s, es), e)
    decreases |es|
  {
    if es == [] {
      assert es + [e] == [e] && [e][1..] == [];
      assert L.Run(s, [e]) == L.Run(L.Next(s, e), []);
    } else {
      assert (es + [e])[1..] == es[1..] + [e];
      RunSnoc(L.Next(s, es[0]), es[1..], e);
    }
  }

  /** At most one child, and none after the return; health only on the child's own marker. */
  ghost predicate InHand(s: L.State) {
    && (forall i, j :: i in s.alive && j in s.alive ==> i == j)
    && (!L.WithChild(s.pc) ==> s.alive == {})
    && (L.DeclaredHealthy(s.pc) ==> s.child.Some? && L.WroteAfterStart(s.log, s.child.value.id, s.pc.v))
  }

  /** Every moment of the run. */
  ghost predicate AlwaysInHand(origin: L.State, trace: seq<L.Event>) {
    forall k :: 0 <= k <= |trace| ==> InHand(L.Run(origin, trace[..k]))
  }

  lemma InitialChildInv(s: L.State, es: seq<L.Event>)
    requires L.Initial(s)
    ensures L.ChildInv(L.Run(s, es))
  {
    L.ChildRun(s, es);
  }

  lemma EveryMomentInHand(origin: L.State, trace: seq<L.Event>)
    requires L.Initial(origin)
    ensures AlwaysInHand(origin, trace)
  {
    forall k | 0 <= k <= |trace| ensures InHand(L.Run(origin, trace[..k])) {
      InitialChildInv(origin, trace[..k]);
    }
  }

  /** From the moment the agent is deprovisioned with no start under way, nothing is started. */
  ghost predicate NeverStartsDeprovisioned(origin: L.State, trace: seq<L.Event>) {
    forall k :: 0 <= k <= |trace| && L.Halted(L.Run(origin, trace[..k])) ==>
      L.NoSpawnFrom(L.Run(origin, trace).log, |L.Run(origin, trace[..k]).log|)
  }

  lemma DeprovisionedStaysDown(origin: L.State, trace: seq<L.Event>)
    ensures NeverStartsDeprovisioned(origin, trace)
  {
    forall k | 0 <= k <= |trace| && L.Halted(L.Run(origin, trace[..k]))
      ensures L.NoSpawnFrom(L.Run(origin, trace).log, |L.Run(origin, trace[..k]).log|)
    {
      var s := L.Run(origin, trace[..k]);
      L.RunAppend(origin, trace[..k], trace[k..]);
      assert trace[..k] + trace[k..] == trace;
      L.DeprovisionedNeverStarts(s, trace[k..], |s.log|);
    }
  }

  class Host {
    var s: L.State
    ghost const origin: L.State
    ghost var trace: seq<L.Event>

    /** Everything so far is one run of the machine, from a launcher about to start, and has kept
        its invariant. */
    ghost predicate Valid()
      reads this
    {
      L.Initial(origin) && s == L.Run(origin, trace) && L.ChildInv(s)
    }

    constructor (start: L.State)
      requires L.Initial(start)
      ensures Valid() && s == start && origin == start
    {
      s := start;
      origin := start;
      trace := [];
    }

    method Do(e: L.Event)
      requires Valid()
      modifies this
      ensures Valid() && s == L.Next(old(s), e) && |s.log| >= |old(s).log|
    {
      L.ChildStep(s, e);
      LogKept(s, e);
      RunSnoc(origin, trace, e);
      s := L.Next(s, e);
      trace := trace + [e];
    }

    /** Time passes: any number of moves by anyone else. */
    method World()
      requires Valid()
      modifies this
      ensures Valid() && SamePlace(old(s).pc, s.pc) && |s.log| >= |old(s).log|
      ensures old(s).deprovisioned ==> s.deprovisioned
    {
      var moves: int := *;
      while moves > 0
        invariant Valid() && SamePlace(old(s).pc, s.pc) && |s.log| >= |old(s).log|
        invariant old(s).deprovisioned ==> s.deprovisioned
        decreases moves
      {
        moves := moves - 1;
        var e: L.Event := *;
        if IsWorld(e) {
          WorldStaysInPlace(s, e);
          Do(e);
        }
      }
    }

    /** stop, then the receive from exitCh. */
    method StopChild()
      requires Valid() && s.pc.Stopping?
      modifies this
      ensures Valid() && s.alive == {} && |s.log| >= |old(s).log|
      ensures s.pc == match old(s).pc.next
        case ThenShutdown => L.Returned(L.CleanStop)
        case ThenDemote => L.Demoting(old(s).pc.v)
        case ThenRestart => L.Top
    {
      World();
      Do(L.Killed);
      Do(L.Stopped);
    }

    /** The select takes the child's exit: a bad version, unless a stop or deprovisioning explains it. */
    method TakeExit() returns (asked: bool)
      requires Valid() && (s.pc.AwaitHealth? || s.pc.Steady?) && !L.ChildAlive(s)
      modifies this
      ensures Valid() && |s.log| >= |old(s).log| && s.alive == {}
      ensures asked == (old(s).cancelled || old(s).deprovisioned)
      ensures s.pc == if asked then L.Returned(L.CleanStop)
                      else if old(s).pc.Steady? then L.Top else L.Demoting(old(s).pc.v)
    {
      asked := s.cancelled || s.deprovisioned;
      Do(L.SelectExit);
    }

    /** The select takes the health watcher's answer. */
    method TakeHealth() returns (o: Outcome)
      requires Valid() && s.pc.AwaitHealth? && !s.pc.health.Pending?
      modifies this
      ensures Valid() && |s.log| >= |old(s).log|
      ensures o == (if old(s).pc.health.Healthy? then Healthy else if old(s).cancelled then Shutdown else Unhealthy)
      ensures o == Healthy ==> s.pc == L.Steady(old(s).pc.v)
      ensures o == Unhealthy ==> s.pc == L.Demoting(old(s).pc.v) && s.alive == {}
      ensures o == Shutdown ==> s.pc == L.Returned(L.CleanStop) && s.alive == {}
    {
      o := if s.pc.health.Healthy? then Healthy else if s.cancelled then Shutdown else Unhealthy;
      Do(L.SelectHealth);
      if o != Healthy { StopChild(); }
    }

    /** The select waits only while none of its cases is ready. */
    method SuperviseUntilHealthy(v: L.Version, patience: nat) returns (o: Outcome)
      requires Valid() && s.pc == L.AwaitHealth(v, L.Pending)
      modifies this
      ensures Valid() && |s.log| >= |old(s).log|
      ensures o == Healthy ==> s.pc == L.Steady(v)
      ensures o == Unhealthy ==> s.pc == L.Demoting(v)
      ensures o == Shutdown ==> s.pc == L.Returned(L.CleanStop)
      ensures o == Unhealthy || o == Shutdown ==> s.alive == {}
      ensures o == Undecided && patience > 0 ==> s.pc == L.AwaitHealth(v, L.Pending) && !s.cancelled && L.ChildAlive(s)
      ensures o != PendingUpdate && o != Exited
    {
      for i := 0 to patience
        invariant Valid() && s.pc.AwaitHealth? && s.pc.v == v && |s.log| >= |old(s).log|
        invariant i > 0 ==> s.pc.health.Pending? && !s.cancelled && L.ChildAlive(s)
      {
        World();
        var take: int := *;   // which of the ready cases the select takes
        if s.cancelled && (take == 0 || (L.ChildAlive(s) && s.pc.health.Pending?)) {
          Do(L.SelectCancel);
          StopChild();
          return Shutdown;
        } else if !L.ChildAlive(s) && (take == 1 || s.pc.health.Pending?) {
          var asked := TakeExit();
          return if asked then Shutdown else Unhealthy;
        } else if !s.pc.health.Pending? {
          o := TakeHealth();
          return;
        }
      }
      return Undecided;
    }

    /** Likewise, and a pending update is noticed at the next tick. */
    method SuperviseSteadyState(v: L.Version, patience: nat) returns (o: Outcome)
      requires Valid() && s.pc == L.Steady(v)
      modifies this
      ensures Valid() && |s.log| >= |old(s).log|
      ensures o == PendingUpdate || o == Exited ==> s.pc.Top?
      ensures o == Shutdown ==> s.pc == L.Returned(L.CleanStop)
      ensures o != Undecided ==> s.alive == {}
      ensures o == Undecided && patience > 0 ==>
        s.pc == L.Steady(v) && !s.cancelled && L.ChildAlive(s) && !s.pendingUpdate
      ensures o != Healthy && o != Unhealthy
    {
      for i := 0 to patience
        invariant Valid() && s.pc == L.Steady(v) && |s.log| >= |old(s).log|
        invariant i > 0 ==> !s.cancelled && L.ChildAlive(s) && !s.pendingUpdate
      {
        World();
        var take: int := *;
        if s.cancelled && (take == 0 || (L.ChildAlive(s) && !s.pendingUpdate)) {
          Do(L.SelectCancel);
          StopChild();
          return Shutdown;
        } else if !L.ChildAlive(s) && (take == 1 || !s.pendingUpdate) {
          var asked := TakeExit();
          return if asked then Shutdown else Exited;
        } else if s.pendingUpdate {
          Do(L.SelectTick);
          StopChild();
          return PendingUpdate;
        }
      }
      return Undecided;
    }

    /** Quarantine, whose failure is only logged, then roll back. */
    method DemoteBadVersion(v: L.Version, reliable: bool) returns (ok: bool)
      requires Valid() && s.pc == L.Demoting(v)
      modifies this
      ensures Valid() && (if ok then s.pc.Top? else s.pc.Returned?) && s.alive == {} && |s.log| >= |old(s).log|
      ensures s.pc == L.Returned(L.NoLastKnownGood) <==> old(s).previous.None?
      ensures reliable ==> v in s.quarantine
      ensures reliable && old(s).previous.Some? ==> ok && s.current == old(s).previous
    {
      var marked := *;
      var rolled: L.RollbackResult := *;
      if reliable { marked, rolled := true, L.Rolled; }
      Do(L.Mark(marked));
      Do(L.RollBack(rolled));
      return s.pc.Top?;
    }

    /** Waiting for the child, with nothing to react to. */
    predicate Waits()
      reads this
    {
      && !s.cancelled && L.ChildAlive(s)
      && ((s.pc.AwaitHealth? && s.pc.health.Pending?) || (s.pc.Steady? && !s.pendingUpdate))
    }

    /** The top of the loop: deprovisioned, unresolvable or unstartable, or a child is running. */
    method StartCurrent(reliable: bool) returns (started: bool)
      requires Valid() && s.pc.Top?
      modifies this
      ensures Valid() && if started then s.pc.AwaitHealth? && s.pc.health.Pending? else s.pc.Returned?
      ensures started ==> |s.log| > |old(s).log|
      ensures old(s).deprovisioned ==> !started
    {
      World();
      var resolves := *;
      if reliable || s.deprovisioned { resolves := true; }
      Do(if resolves then L.Loop else L.ResolveFails);
      if !s.pc.Starting? { return false; }
      World();
      Do(L.ClearMarker);
      World();
      started := *;
      if reliable { started := true; }
      Do(L.Spawn(started));
    }

    /** One pass of Run's loop: it comes round again only after it has had a child, and otherwise has
        returned or waits for the child. */
    method Pass(patience: nat, reliable: bool) returns (again: bool)
      requires Valid() && s.pc.Top?
      modifies this
      ensures Valid() && (again ==> s.pc.Top? && |s.log| > |old(s).log|)
      ensures !again && patience > 0 ==> s.pc.Returned? || Waits()
    {
      var started := StartCurrent(reliable);
      if !started { return false; }
      var v := s.pc.v;
      var o := SuperviseUntilHealthy(v, patience);
      if o == Unhealthy {
        again := DemoteBadVersion(v, reliable);
        return;
      }
      if o != Healthy { return false; }
      o := SuperviseSteadyState(v, patience);
      return o == PendingUpdate || o == Exited;
    }

    /** Run, for any number of passes and waits. */
    method RunLauncher(passes: nat, patience: nat, reliable: bool)
      requires Valid() && s.pc.Top?
      modifies this
      ensures Valid() && AlwaysInHand(origin, trace) && NeverStartsDeprovisioned(origin, trace)
      ensures s.pc.Returned? ==> s.alive == {}
      ensures patience > 0 ==> s.pc.Returned? || Waits() || (s.pc.Top? && |s.log| >= |old(s).log| + passes)
    {
      var again := true;
      for i := 0 to passes
        invariant Valid() && (again ==> s.pc.Top? && |s.log| >= |old(s).log| + i)
        invariant !again && patience > 0 ==> s.pc.Returned? || Waits()
      {
        if again { again := Pass(patience, reliable); }
      }
      EveryMomentInHand(origin, trace);
      DeprovisionedStaysDown(origin, trace);
    }
  }
}
