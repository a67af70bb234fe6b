/** The coordinator of launches of the desktop sidecar: a generation counter and a chain of
    promises. Operations run one at a time; an invalidation outdates all that were called before. */
module LaunchCoordinator {

  datatype Phase = Queued | Running | Finished | Interrupted

  datatype StopPhase = Called | Stopping | Stopped

  /** A promise: the resolved one the chain begins with, an operation chained behind another
      promise, the stop of an invalidation, or the settling of two others. */
  datatype Promise =
    | Resolved
    | Operation(after: nat, generation: nat, phase: Phase)
    | Stop(stopPhase: StopPhase)
    | AllSettled(previous: nat, stopping: nat)

  /** The fields of the coordinator, the promises made so far, and the operations in the order in
      which they started. */
  datatype State = State(generation: nat, tail: nat, promises: seq<Promise>, started: seq<nat>)

  const Initial := State(0, 0, [Resolved], [])

  /** A promise that does not depend on others is settled. */
  predicate Ended(p: Promise) {
    match p
    case Resolved => true
    case Operation(_, _, phase) => phase == Finished || phase == Interrupted
    case Stop(phase) => phase == Stopped
    case AllSettled(_, _) => true
  }

  predicate Settled(ps: seq<Promise>, i: nat)
    requires i < |ps|
    decreases i
  {
    match ps[i]
    case AllSettled(previous, stopping) =>
      && previous < i && Settled(ps, previous)
      && stopping < i && Settled(ps, stopping)
    case p => Ended(p)
  }

  // ---- The coordinator's two methods, and what the event loop may do ----

  datatype Step =
    | CallRun
    | CallInvalidate
    | Begin(op: nat)
    | Finish(op: nat)
    | BeginStop(stop: nat)
    | FinishStop(stop: nat)

  function SetPhase(s: State, i: nat, phase: Phase): State
    requires i < |s.promises| && s.promises[i].Operation?
  {
    s.(promises := s.promises[i := s.promises[i].(phase := phase)])
  }

  /** Whether the event loop may take this step now. */
  predicate Enabled(s: State, step: Step) {
    match step
    case CallRun => true
    case CallInvalidate => true
    case Begin(i) =>
      i < |s.promises| && s.promises[i].Operation? && s.promises[i].phase == Queued
      && s.promises[i].after < |s.promises| && Settled(s.promises, s.promises[i].after)
    case Finish(i) => i < |s.promises| && s.promises[i].Operation? && s.promises[i].phase == Running
    case BeginStop(i) => i < |s.promises| && s.promises[i] == Stop(Called)
    case FinishStop(i) => i < |s.promises| && s.promises[i] == Stop(Stopping)
  }

  function Run(s: State): State {
    State(s.generation, |s.promises|, s.promises + [Operation(s.tail, s.generation, Queued)], s.started)
  }

  function Invalidate(s: State): State {
    var stopping := |s.promises|;
    State(s.generation + 1, stopping + 1, s.promises + [Stop(Called), AllSettled(s.tail, stopping)], s.started)
  }

  /** The chained callback: it first asserts that its generation is current. */
  function BeginOperation(s: State, i: nat): State
    requires i < |s.promises| && s.promises[i].Operation?
  {
    if s.promises[i].generation != s.generation then SetPhase(s, i, Interrupted)
    else SetPhase(s, i, Running).(started := s.started + [i])
  }

  function Next(s: State, step: Step): State
    requires Enabled(s, step)
  {
    match step
    case CallRun => Run(s)
    case CallInvalidate => Invalidate(s)
    case Begin(i) => BeginOperation(s, i)
    case Finish(i) => SetPhase(s, i, Finished)
    case BeginStop(i) => s.(promises := s.promises[i := Stop(Stopping)])
    case FinishStop(i) => s.(promises := s.promises[i := Stop(Stopped)])
  }

  /** What a running operation learns when it asserts that it is current. */
  predicate AssertCurrent(s: State, i: nat)
    requires i < |s.promises| && s.promises[i].Operation?
  {
    s.promises[i].generation == s.generation
  }

  ghost predicate Possible(s: State, steps: seq<Step>)
    decreases |steps|
  {
    steps == [] || (Enabled(s, steps[0]) && Possible(Next(s, steps[0]), steps[1..]))
  }

  function After(s: State, steps: seq<Step>): State
    requires Possible(s, steps)
    decreases |steps|
  {
    if steps == [] then s else After(Next(s, steps[0]), steps[1..])
  }

  // ---- The invariant ----

  predicate WellPlaced(ps: seq<Promise>, i: nat)
    requires i < |ps|
  {
    match ps[i]
    case Resolved => i == 0
    case Operation(after, _, _) => i == after + 1 && !ps[after].Stop?
    case Stop(_) => 0 < i && i + 1 < |ps| && !ps[i - 1].Stop? && ps[i + 1] == AllSettled(i - 1, i)
    case AllSettled(previous, stopping) =>
      i == stopping + 1 && stopping == previous + 1 && ps[stopping].Stop? && !ps[previous].Stop?
  }

  ghost predicate Chained(s: State) {
    && |s.promises| > 0 && s.tail == |s.promises| - 1 && !s.promises[s.tail].Stop?
    && forall i | 0 <= i < |s.promises| :: WellPlaced(s.promises, i)
  }

  /** An operation that has left the queue did so after everything before it had ended. */
  ghost predicate InOrder(ps: seq<Promise>) {
    forall i, j | 0 <= j < i < |ps| && ps[i].Operation? && ps[i].phase != Queued :: Ended(ps[j])
  }

  /** An invalidation was called after the operation. */
  predicate OutdatedBy(ps: seq<Promise>, i: nat, j: nat) {
    i < j < |ps| && ps[j].Stop?
  }

  /** An operation is of the current generation exactly when no invalidation was called after it. */
  ghost predicate Generations(s: State) {
    && (forall i: nat | i < |s.promises| && s.promises[i].Operation? :: s.promises[i].generation <= s.generation)
    && (forall i: nat | i < |s.promises| && s.promises[i].Operation? ::
          s.promises[i].generation == s.generation <==> forall j: nat :: !OutdatedBy(s.promises, i, j))
  }

  predicate HasStarted(p: Promise) {
    p.Operation? && (p.phase == Running || p.phase == Finished)
  }

  ghost predicate Started(s: State) {
    && (forall k | 0 <= k < |s.started| :: s.started[k] < |s.promises| && HasStarted(s.promises[s.started[k]]))
    && (forall i: nat | i < |s.promises| && HasStarted(s.promises[i]) :: i in s.started)
    && (forall k, l | 0 <= k < l < |s.started| :: s.started[k] < s.started[l])
  }

  ghost predicate Inv(s: State) {
    Chained(s) && InOrder(s.promises) && Generations(s) && Started(s)
  }

  /** A link of the chain is settled exactly when it and everything before it has ended. */
  lemma {:induction false} SettledMeansAllEnded(s: State, i: nat)
    requires Chained(s) && InOrder(s.promises) && i < |s.promises| && !s.promises[i].Stop?
    ensures Settled(s.promises, i) ==> forall j | 0 <= j <= i :: Ended(s.promises[j])
    decreases i
  {
    assert WellPlaced(s.promises, i);
    if s.promises[i].AllSettled? && Settled(s.promises, i) {
      SettledMeansAllEnded(s, i - 2);
      assert Settled(s.promises, i - 1) && Ended(s.promises[i - 1]);
    }
  }

  lemma {:induction false} AllEndedMeansSettled(s: State, i: nat)
    requires Chained(s) && i < |s.promises| && forall j | 0 <= j <= i :: Ended(s.promises[j])
    ensures Settled(s.promises, i)
    decreases i
  {
    assert WellPlaced(s.promises, i);
    if s.promises[i].AllSettled? {
      AllEndedMeansSettled(s, i - 2);
      AllEndedMeansSettled(s, i - 1);
    }
  }

  // ---- Every step keeps it ----

  lemma RunKeeps(s: State)
    requires Inv(s)
    ensures Inv(Run(s))
  {
    var s' := Run(s);
    forall i | 0 <= i < |s'.promises| ensures WellPlaced(s'.promises, i) {
      if i < |s.promises| {
        assert WellPlaced(s.promises, i);
      }
    }
    forall i: nat, j: nat ensures i < |s.promises| ==> (OutdatedBy(s'.promises, i, j) <==> OutdatedBy(s.promises, i, j))
    {
    }
    forall j: nat ensures !OutdatedBy(s'.promises, |s.promises|, j) {
    }
  }

  lemma InvalidateKeeps(s: State)
    requires Inv(s)
    ensures Inv(Invalidate(s))
  {
    var s' := Invalidate(s);
    forall i | 0 <= i < |s'.promises| ensures WellPlaced(s'.promises, i) {
      if i < |s.promises| {
        assert WellPlaced(s.promises, i);
      }
    }
    forall i: nat | i < |s'.promises| && s'.promises[i].Operation?
      ensures s'.promises[i].generation <= s.generation && exists j: nat :: OutdatedBy(s'.promises, i, j)
    {
      assert s'.promises[i] == s.promises[i];
      assert OutdatedBy(s'.promises, i, |s.promises|);
    }
    forall i: nat | i < |s'.promises| && HasStarted(s'.promises[i]) ensures i in s'.started {
      assert HasStarted(s.promises[i]);
    }
  }

  /** A step that changes one promise, keeping its kind and generation. */
  lemma ChangeKeeps(s: State, i: nat, p: Promise)
    requires Inv(s) && i < |s.promises|
    requires match s.promises[i]
             case Operation(after, generation, _) => p.Operation? && p.after == after && p.generation == generation
             case Stop(_) => p.Stop?
             case _ => false
    requires Ended(s.promises[i]) ==> Ended(p)
    requires p.Operation? && p.phase != Queued ==> forall j | 0 <= j < i :: Ended(s.promises[j])
    ensures var s' := s.(promises := s.promises[i := p]);
            Chained(s') && InOrder(s'.promises) && Generations(s')
  {
    var s' := s.(promises := s.promises[i := p]);
    forall k | 0 <= k < |s'.promises| ensures WellPlaced(s'.promises, k) {
      assert WellPlaced(s.promises, k);
    }
    forall k, j | 0 <= j < k < |s'.promises| && s'.promises[k].Operation? && s'.promises[k].phase != Queued
      ensures Ended(s'.promises[j])
    {
      assert Ended(s.promises[j]);
    }
    forall k: nat, j: nat ensures OutdatedBy(s'.promises, k, j) <==> OutdatedBy(s.promises, k, j) {
    }
  }

  /** When an operation starts, everything called before it has ended, no invalidation was called
      since, and so every stop ever called has ended. */
  lemma AtBegin(s: State, i: nat)
    requires Inv(s) && Enabled(s, Begin(i))
    ensures forall j | 0 <= j < i :: Ended(s.promises[j])
    ensures AssertCurrent(s, i)
            ==> forall j | 0 <= j < |s.promises| && s.promises[j].Stop? :: s.promises[j] == Stop(Stopped)
    ensures forall k | 0 <= k < |s.started| :: s.started[k] < i
  {
    assert WellPlaced(s.promises, i);
    SettledMeansAllEnded(s, i - 1);
    if AssertCurrent(s, i) {
      forall j | 0 <= j < |s.promises| && s.promises[j].Stop? ensures s.promises[j] == Stop(Stopped) {
        assert !OutdatedBy(s.promises, i, j);
        assert Ended(s.promises[j]);
      }
    }
    forall k | 0 <= k < |s.started| ensures s.started[k] < i {
      assert HasStarted(s.promises[s.started[k]]) && !Ended(s.promises[i]);
    }
  }

  lemma BeginKeeps(s: State, i: nat)
    requires Inv(s) && Enabled(s, Begin(i))
    ensures Inv(BeginOperation(s, i))
  {
    AtBegin(s, i);
    ChangeKeeps(s, i, s.promises[i].(phase := if AssertCurrent(s, i) then Running else Interrupted));
    BeginKeepsStarted(s, i);
  }

  lemma BeginKeepsStarted(s: State, i: nat)
    requires Started(s) && Enabled(s, Begin(i)) && forall k | 0 <= k < |s.started| :: s.started[k] < i
    ensures Started(BeginOperation(s, i))
  {
    var s' := BeginOperation(s, i);
    forall j: nat | j < |s'.promises| && HasStarted(s'.promises[j]) ensures j in s'.started {
      if j != i {
        assert HasStarted(s.promises[j]);
      }
    }
  }

  lemma FinishKeeps(s: State, i: nat)
    requires Inv(s) && Enabled(s, Finish(i))
    ensures Inv(Next(s, Finish(i)))
  {
    ChangeKeeps(s, i, s.promises[i].(phase := Finished));
  }

  lemma StopKeeps(s: State, i: nat, phase: StopPhase, s': State)
    requires Inv(s) && i < |s.promises| && s.promises[i].Stop? && s.promises[i] != Stop(Stopped)
    requires s' == s.(promises := s.promises[i := Stop(phase)])
    ensures Inv(s')
  {
    ChangeKeeps(s, i, Stop(phase));
  }

  lemma StepKeeps(s: State, step: Step)
    requires Inv(s) && Enabled(s, step)
    ensures Inv(Next(s, step))
  {
    match step
    case CallRun => RunKeeps(s);
    case CallInvalidate => InvalidateKeeps(s);
    case Begin(i) => BeginKeeps(s, i);
    case Finish(i) => FinishKeeps(s, i);
    case BeginStop(i) => StopKeeps(s, i, Stopping, Next(s, step));
    case FinishStop(i) => StopKeeps(s, i, Stopped, Next(s, step));
  }

  // ---- Main results ----

  lemma {:induction false} RunsKeep(s: State, steps: seq<Step>)
    requires Inv(s) && Possible(s, steps)
    ensures Inv(After(s, steps))
    decreases |steps|
  {
    if steps != [] {
      StepKeeps(s, steps[0]);
      RunsKeep(Next(s, steps[0]), steps[1..]);
    }
  }

  lemma InitialInv()
    ensures Inv(Initial)
  {
  }

  /** For every schedule: operations start in the order they were called, no two run at once, and a
      running operation passes its next check exactly when no invalidation was called after it. */
  lemma OneAtATimeInOrder(steps: seq<Step>)
    requires Possible(Initial, steps)
    ensures var s := After(Initial, steps);
            && (forall k, l | 0 <= k < l < |s.started| :: s.started[k] < s.started[l])
            && (forall i, j | 0 <= i < |s.promises| && 0 <= j < |s.promises| && s.promises[i].Operation?
                && s.promises[j].Operation? ::
                  s.promises[i].phase == Running && s.promises[j].phase == Running ==> i == j)
            && (forall i: nat | i < |s.promises| && s.promises[i].Operation? ::
                  AssertCurrent(s, i) <==> forall j: nat :: !OutdatedBy(s.promises, i, j))
  {
    InitialInv();
    RunsKeep(Initial, steps);
  }

  /** An operation gets its turn exactly when everything called before it, operations and stops, has
      ended; it then runs if no invalidation was called after it, and is interrupted otherwise. A stop
      never waits: it can begin as soon as it is called, whatever is running. Calls can come at any time. */
  lemma TurnComesIff(steps: seq<Step>, i: nat)
    requires Possible(Initial, steps) && i < |After(Initial, steps).promises|
    ensures var s := After(Initial, steps);
            && (s.promises[i].Operation? ==>
                  && (Enabled(s, Begin(i)) <==>
                        s.promises[i].phase == Queued && forall j | 0 <= j < i :: Ended(s.promises[j]))
                  && (Enabled(s, Begin(i)) ==>
                        Next(s, Begin(i)).promises[i].phase
                        == if exists j: nat :: OutdatedBy(s.promises, i, j) then Interrupted else Running))
            && (s.promises[i] == Stop(Called) ==> Enabled(s, BeginStop(i)))
            && Enabled(s, CallRun) && Enabled(s, CallInvalidate)
  {
    InitialInv();
    RunsKeep(Initial, steps);
    var s := After(Initial, steps);
    if s.promises[i].Operation? {
      assert WellPlaced(s.promises, i);
      SettledMeansAllEnded(s, i - 1);
      if forall j | 0 <= j < i :: Ended(s.promises[j]) {
        AllEndedMeansSettled(s, i - 1);
      }
    }
  }

  /** No operation begins between the call of an invalidation and the end of its stop. */
  lemma NothingBeginsDuringAStop(steps: seq<Step>, i: nat)
    requires Possible(Initial, steps) && Enabled(After(Initial, steps), Begin(i))
    ensures var s := After(Initial, steps);
            i in Next(s, Begin(i)).started ==>
              forall j | 0 <= j < |s.promises| && s.promises[j].Stop? :: s.promises[j] == Stop(Stopped)
  {
    InitialInv();
    RunsKeep(Initial, steps);
    var s := After(Initial, steps);
    AtBegin(s, i);
  }

  lemma StepKeepsOutdated(s: State, step: Step, i: nat, j: nat)
    requires Inv(s) && Enabled(s, step) && i < |s.promises| && s.promises[i].Operation? && !HasStarted(s.promises[i])
    requires OutdatedBy(s.promises, i, j)
    ensures var s' := Next(s, step);
            i < |s'.promises| && s'.promises[i].Operation? && !HasStarted(s'.promises[i])
              && OutdatedBy(s'.promises, i, j)
  {
    assert s.promises[i].generation != s.generation;
  }

  /** An operation called before an invalidation, and not started by then, never starts. */
  lemma {:induction false} OutdatedNeverStarts(s: State, i: nat, j: nat, steps: seq<Step>)
    requires Inv(s) && i < |s.promises| && s.promises[i].Operation? && !HasStarted(s.promises[i])
    requires OutdatedBy(s.promises, i, j) && Possible(s, steps)
    ensures var s' := After(s, steps);
            i < |s'.promises| && s'.promises[i].Operation? && !HasStarted(s'.promises[i]) && i !in s'.started
    decreases |steps|
  {
    if steps != [] {
      StepKeeps(s, steps[0]);
      StepKeepsOutdated(s, steps[0], i, j);
      OutdatedNeverStarts(Next(s, steps[0]), i, j, steps[1..]);
    }
  }

  /** While some operation waits, the event loop always has a step to take other than a new call. */
  lemma NoDeadlock(s: State, i: nat)
    requires Inv(s) && i < |s.promises| && s.promises[i].Operation? && s.promises[i].phase == Queued
    ensures exists step :: step != CallRun && step != CallInvalidate && Enabled(s, step)
  {
    FirstUnended(s, i);
  }

  lemma {:induction false} FirstUnended(s: State, i: nat)
    requires Inv(s) && i < |s.promises| && !Ended(s.promises[i])
    ensures exists step :: step != CallRun && step != CallInvalidate && Enabled(s, step)
    decreases i
  {
    if j: nat :| j < i && !Ended(s.promises[j]) {
      FirstUnended(s, j);
    } else {
      assert WellPlaced(s.promises, i);
      match s.promises[i]
      case Operation(after, _, Queued) =>
        AllEndedMeansSettled(s, after);
        assert Enabled(s, Begin(i));
      case Operation(_, _, Running) => assert Enabled(s, Finish(i));
      case Stop(Called) => assert Enabled(s, BeginStop(i));
      case Stop(Stopping) => assert Enabled(s, FinishStop(i));
    }
  }

  // ---- The object ----

  /** The coordinator with the promises it has made. The fields `promises` and `started` stand for
      the event loop. */
  class GooseLaunchCoordinator {
    var generation: nat
    var tail: nat
    var promises: seq<Promise>
    ghost var started: seq<nat>

    ghost function View(): State
      reads this
    {
      State(generation, tail, promises, started)
    }

    constructor ()
      ensures View() == Initial && Inv(View())
    {
      generation, tail, promises, started := 0, 0, [Resolved], [];
      new;
      InitialInv();
    }

    /** Chain an operation behind everything called so far. */
    method RunOperation() returns (current: nat)
      requires Inv(View())
      modifies this
      ensures View() == Run(old(View())) && Inv(View()) && current == tail
    {
      RunKeeps(View());
      current := |promises|;
      promises := promises + [Operation(tail, generation, Queued)];
      tail := current;
    }

    /** Outdate everything called so far; what is called later waits for the stop. */
    method CallStop() returns (stopping: nat)
      requires Inv(View())
      modifies this
      ensures View() == Invalidate(old(View())) && Inv(View()) && stopping + 1 == tail
    {
      InvalidateKeeps(View());
      generation := generation + 1;
      var previous := tail;
      stopping := |promises|;
      promises := promises + [Stop(Called), AllSettled(previous, stopping)];
      tail := stopping + 1;
    }

    /** The callback of an operation whose predecessor has settled. */
    method OnSettled(i: nat) returns (interrupted: bool)
      requires Inv(View()) && Enabled(View(), Begin(i))
      modifies this
      ensures View() == Next(old(View()), Begin(i)) && Inv(View())
      ensures interrupted <==> exists j: nat :: OutdatedBy(old(promises), i, j)
    {
      BeginKeeps(View(), i);
      interrupted := promises[i].generation != generation;
      if interrupted {
        promises := promises[i := promises[i].(phase := Interrupted)];
      } else {
        promises := promises[i := promises[i].(phase := Running)];
        started := started + [i];
      }
    }
  }
}
