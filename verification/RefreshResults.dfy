/** What holds in every reachable state of the refresh, and over its runs. */
module RefreshResults {
  import opened CStrings
  import opened Refresh
  import opened RefreshRun

  // ----- posts -----

  /** When the worker has exited, every post of a table bit is followed by a complete run of its handler. */
  lemma NoPostIsLost(s: State, p: nat, b: nat)
    requires Reachable(s) && s.worker.Exited?
    requires p < |s.log| && s.log[p].Posted? && b in s.log[p].bits && b < TABLE
    ensures exists q, r :: p < q < r < |s.log| && s.log[q] == Started(b) && s.log[r] == Finished(b)
  {
    ReachableInv(s);
    OwedMeans(s.log, b);
    var q :| p < q < |s.log| && s.log[q] == Started(b);
    StartedFinishes(s.log, q, b);
  }

  /** At the join no posted bit is left: the worker has exited with an empty mask. */
  lemma JoinedAfterAllPosts(s: State)
    requires Reachable(s) && (s.ui.Releasing? || s.ui.Gone?)
    ensures s.worker.Exited? && s.mask == {} && s.lock == Unlocked
    ensures forall b :: 0 <= b < TABLE ==> !Owed(s.log, b)
  {
    ReachableInv(s);
  }

  /** In every reachable state a nonempty mask will be exchanged, and a sleeping worker owes nothing. */
  lemma PostsWakeTheWorker(s: State)
    requires Reachable(s)
    ensures s.mask != {} ==> s.event || s.ui == Posting || WillDrain(s.worker)
    ensures s.worker.Waiting? && !s.event && s.ui != Posting ==>
      s.mask == {} && forall b :: 0 <= b < TABLE ==> !Owed(s.log, b)
    ensures forall b :: 0 <= b < TABLE ==>
      (Owed(s.log, b) ==> b in s.mask || Pending(s.worker, b)) && Starts(s.log, b) <= Posts(s.log, b)
  {
    ReachableInv(s);
  }

  /** In every reachable state each post of a table bit has been served by a start of its own, merged into one that
      stood in the mask, or stands in the mask or in the worker's hands; so once nothing is pending the handler
      has started as often as the bit was posted exactly when no post found the bit set. */
  lemma ServedExactly(s: State, b: nat)
    requires Reachable(s) && b < TABLE
    ensures Posts(s.log, b) == Starts(s.log, b) + Merged(s.log, b)
      + (if b in s.mask then 1 else 0) + (if Pending(s.worker, b) then 1 else 0)
    ensures b !in s.mask && !Pending(s.worker, b) ==>
      (Starts(s.log, b) == Posts(s.log, b) <==>
        forall p :: 0 <= p < |s.log| && s.log[p].Posted? && b in s.log[p].bits ==> b !in s.log[p].before)
  {
    ReachableInv(s);
    MergedMeans(s.log, b);
  }

  lemma ReachStep(s: State, t: Step)
    requires Reachable(s) && Can(s, t)
    ensures Reachable(Next(s, t))
  {
    var cpu, steps :| Run(Init(cpu), steps) == Some(s);
    RunMore(Init(cpu), steps, t);
  }

  lemma {:induction false} RunMore(s: State, steps: seq<Step>, t: Step)
    requires Run(s, steps).Some? && Can(Run(s, steps).value, t)
    ensures Run(s, steps + [t]) == Some(Next(Run(s, steps).value, t))
    decreases |steps|
  {
    if steps == [] {
      assert Run(Next(s, t), []) == Some(Next(s, t));
      assert (steps + [t])[1..] == [];
    } else {
      assert (steps + [t])[1..] == steps[1..] + [t];
      RunMore(Next(s, steps[0]), steps[1..], t);
    }
  }

  lemma ReachRun(s: State, steps: seq<Step>)
    requires Reachable(s) && Run(s, steps).Some?
    ensures Reachable(Run(s, steps).value)
    decreases |steps|
  {
    if steps != [] {
      ReachStep(s, steps[0]);
      ReachRun(Next(s, steps[0]), steps[1..]);
    }
  }

  function PostAndSignal(s: State, bits: set<nat>): State {
    Next(Next(s, Post(bits)), Signal)
  }

  lemma ReachPost(s: State, bits: set<nat>)
    requires Reachable(s) && s.ui == Idle && bits != {}
    ensures Reachable(PostAndSignal(s, bits))
  {
    ReachStep(s, Post(bits));
    ReachStep(Next(s, Post(bits)), Signal);
  }

  lemma ReachWork(s: State)
    requires Reachable(s) && CanWork(s)
    ensures Reachable(WorkStep(s, true))
  {
    ReachStep(s, Work(true));
  }

  /** From the signalled mask to the first posted handler of two steps. */
  lemma ReachFirst(s: State) returns (t: State)
    requires Reachable(s) && s.worker == Waiting && s.event && 1 in s.mask && 0 !in s.mask
    ensures Reachable(t)
    ensures t == s.(event := false, mask := {}, worker := Handling(s.mask, 1, Handler(1)), log := s.log + [Started(1)])
  {
    hide Reachable, Handler;
    var a := WorkStep(s, true);
    ReachWork(s);
    var b := WorkStep(a, true);
    ReachWork(a);
    var c := WorkStep(b, true);
    ReachWork(b);
    t := WorkStep(c, true);
    ReachWork(c);
  }

  /** Two posts before the worker takes the mask are served by one start. */
  lemma MergedRun() returns (s: State)
    ensures Reachable(s) && 1 !in s.mask && !Pending(s.worker, 1)
    ensures Posts(s.log, 1) == 2 && Merged(s.log, 1) == 1 && Starts(s.log, 1) == 1
  {
    hide Posts, Starts, Merged, Owed, Reachable;
    var a := PostAndSignal(Init(false), {1});
    var b := PostAndSignal(a, {1});
    ReachInit(false);
    ReachPost(Init(false), {1});
    ReachPost(a, {1});
    s := ReachFirst(b);
    var first, second := Posted({1}, {}), Posted({1}, a.mask);
    OwedAppend([], first);
    OwedAppend([] + [first], second);
    OwedAppend([] + [first] + [second], Started(1));
    assert s.log == [] + [first] + [second] + [Started(1)];
    NothingYet(1);
  }

  lemma NothingYet(b: nat)
    ensures Posts([], b) == 0 && Merged([], b) == 0 && Starts([], b) == 0
  {}

  lemma ReachInit(cpu: bool)
    ensures Reachable(Init(cpu))
  {
    assert Run(Init(cpu), []) == Some(Init(cpu));
  }

  /** init_done is set exactly when a drain has ended, no resetting handler is past its reset, and a drain has ended
      after each one that finished; a handler in hand of the disks, displays or memory modules then has its reset
      ahead. */
  lemma InitDoneExactly(s: State)
    requires Reachable(s)
    ensures s.initDone <==>
      && DrainedOnce(s.log) && !PastReset(s.worker)
      && forall p :: 0 <= p < |s.log| && s.log[p].Finished? && ResetsInit(s.log[p].entry) ==>
        exists q :: p < q < |s.log| && s.log[q] == Drained
    ensures s.initDone ==>
      && !ResetBelow(s.worker)
      && (s.worker.Handling? && ResetsInit(s.worker.i) ==> Resets(s.worker.plan) == 1)
  {
    ReachableInv(s);
    ResetServedMeans(s.log);
  }

  /** The worker sleeps without the lock, and init_done says exactly that the last drain reset nothing after it
      ended. */
  lemma WaitingHoldsNoLock(s: State)
    requires Reachable(s)
    ensures !s.worker.Handling? ==> s.lock == Unlocked || s.lock == ByUi
    ensures s.initDone <==> Ready(s.log)
    ensures s.worker.Waiting? && !s.initDone ==> forall e :: e in s.log ==> e.Posted?
  {
    ReachableInv(s);
  }

  /** Published pointers are null or live until the exit frees them; nothing is ever freed twice. */
  lemma PublishedLive(s: State)
    requires Reachable(s)
    ensures forall x :: Published(x) in s.mem.ptr ==> s.mem.ptr[Published(x)] in s.mem.live
    ensures forall id: nat :: s.mem.freed[id] <= 1 && (s.mem.freed[id] == 1 ==> id !in s.mem.live)
  {
    ReachableInv(s);
  }

  /** At the end every snapshot ever made has been freed exactly once, and nothing else. */
  lemma FreedExactlyOnce(s: State)
    requires Reachable(s) && s.ui.Gone?
    ensures s.mem.live == {}
    ensures forall id: nat :: s.mem.freed[id] == if id < s.mem.next then 1 else 0
  {
    ReachableInv(s);
    assert forall id :: id !in s.mem.live;
  }

  /** While the UI draws, every snapshot it could already see stays published and live. */
  lemma {:induction false} DrawSafe(s: State, steps: seq<Step>, x: Slot)
    requires Inv(s) && s.lock == ByUi && Published(x) in s.mem.ptr
    requires Release !in steps && Run(s, steps).Some?
    ensures var t := Run(s, steps).value;
      && t.lock == ByUi && Published(x) in t.mem.ptr
      && t.mem.ptr[Published(x)] == s.mem.ptr[Published(x)] && t.mem.ptr[Published(x)] in t.mem.live
    decreases |steps|
  {
    if steps != [] {
      var t := steps[0];
      StepKeepsInv(s, t);
      DrawStep(s, t, x);
      DrawSafe(Next(s, t), steps[1..], x);
    }
  }

  lemma DrawStep(s: State, t: Step, x: Slot)
    requires Inv(s) && s.lock == ByUi && Published(x) in s.mem.ptr && Can(s, t) && t != Release
    ensures var n := Next(s, t);
      n.lock == ByUi && Published(x) in n.mem.ptr && n.mem.ptr[Published(x)] == s.mem.ptr[Published(x)]
  {
    hide BitsKept, BitsSignalled, InitTracked, InitPlaced, HandlersTracked, Sound, MemStep, Meets;
    if t.Work? && s.worker.Handling? && s.worker.plan.Do? { DrawMem(s.mem, s.worker.plan, t.choice, x); }
  }

  /** Outside the lock no action of a handler touches a published snapshot. */
  lemma DrawMem(m: Memory, p: Plan, choice: bool, x: Slot)
    requires p.Do? && Meets(m, Needs(p)) && Needs(p).held == Unlocked && Published(x) in m.ptr
    ensures var n := MemStep(m, p.op, choice); Published(x) in n.ptr && n.ptr[Published(x)] == m.ptr[Published(x)]
    ensures !p.op.UnlockShared? && !p.op.UnlockExclusive?
  {}

  // ----- the join -----

  function Weight(p: Plan): nat {
    if p.Done? then 0 else Weight(p.next) + if p.op == Branch then 15 else 1
  }

  function Phase(w: Worker): nat {
    match w
    case Exited => 0
    case Waiting => 1
    case Finishing => 2
    case Draining => 3
    case Running(_, i) => 4 + if i < TABLE then 20 * (TABLE - i) else 0
    case Handling(_, i, plan) => 5 + Weight(plan) + if i < TABLE - 1 then 20 * (TABLE - 1 - i) else 0
  }

  /** A bound on the actions the worker has left once nothing is posted any more. */
  function Rank(s: State): nat {
    (if s.event then 400 else 0) + (if s.mask != {} then 200 else 0) + Phase(s.worker)
  }

  lemma WeightOfThree(a: Op, b: Op, c: Op, next: Plan)
    requires a != Branch && b != Branch && c != Branch
    ensures Weight(Do(a, Do(b, Do(c, next)))) == Weight(next) + 3
  {
    assert Weight(Do(b, Do(c, next))) == Weight(Do(c, next)) + 1 == Weight(next) + 2;
  }

  lemma SwapWeight(x: Slot, first: Op)
    requires first != Branch
    ensures Weight(Do(first, BuildAndSwap(x))) == 6
  {}

  lemma SecondWeight(sensorView: bool)
    ensures Weight(SecondPlan(sensorView)) <= 13
  {
    hide Weight;
    if sensorView {
      SwapWeight(Sensors, Ensure(Gpu));
    } else {
      var free := Do(Free(Network), Do(Free(Audio), Do(Free(CpuInfo), Done)));
      assert Weight(Done) == 0 by { NoWeight(); }
      WeightOfThree(Free(Network), Free(Audio), Free(CpuInfo), Done);
      var swaps := Do(Swap(CpuInfo), Do(Swap(Audio), Do(UnlockExclusive, free)));
      WeightOfThree(Swap(CpuInfo), Swap(Audio), UnlockExclusive, free);
      var lock := Do(Build(Audio), Do(LockExclusive, Do(Swap(Network), swaps)));
      WeightOfThree(Build(Audio), LockExclusive, Swap(Network), swaps);
      var build := Do(UnlockShared, Do(Build(Network), Do(Build(CpuInfo), lock)));
      WeightOfThree(UnlockShared, Build(Network), Build(CpuInfo), lock);
      assert Weight(Do(LockShared, build)) == 13 by { OneWeight(LockShared, build); }
    }
  }

  lemma NoWeight()
    ensures Weight(Done) == 0
  {}

  lemma OneWeight(a: Op, next: Plan)
    ensures Weight(Do(a, next)) == Weight(next) + if a == Branch then 15 else 1
  {}

  lemma HandlerWeights(i: nat)
    requires i < TABLE
    ensures Weight(Handler(i)) <= 17
  {
    hide Weight;
    NoWeight();
    match i
    case 0 =>
      OneWeight(Branch, Done);
      OneWeight(UnlockShared, Do(Branch, Done));
      OneWeight(LockShared, Do(UnlockShared, Do(Branch, Done)));
    case 3 =>
      var publish := Do(Build(Gpu), Do(Publish(Gpu), Do(Free(Edid), Done)));
      WeightOfThree(Build(Gpu), Publish(Gpu), Free(Edid), Done);
      var swap := Do(Free(Gpu), Do(Swap(Edid), Do(UnlockExclusive, publish)));
      WeightOfThree(Free(Gpu), Swap(Edid), UnlockExclusive, publish);
      var take := Do(ResetInit, Do(LockExclusive, Do(Take(Gpu), swap)));
      WeightOfThree(ResetInit, LockExclusive, Take(Gpu), swap);
      OneWeight(Build(Edid), take);
    case _ =>
      var slot := if i == 2 then Disk else if i == 5 then Smb else if i == 6 then Spd else Battery;
      SwapWeight(slot, UnlockShared);
      OneWeight(UnlockShared, BuildAndSwap(slot));
      WeightOfThree(ResetInit, LockShared, UnlockShared, BuildAndSwap(slot));
  }

  /** While the UI does not hold the lock, every action of the worker lowers the bound. */
  lemma WorkerProgress(s: State, choice: bool)
    requires Inv(s) && s.lock != ByUi && CanWork(s)
    ensures Rank(WorkStep(s, choice)) < Rank(s) && WorkStep(s, choice).lock != ByUi
  {
    hide BitsKept, InitTracked, InitPlaced, HandlersTracked, Sound, Handler, SecondPlan, MemStep;
    match s.worker
    case Running(bits, i) => if i < TABLE { HandlerWeights(i); }
    case Handling(bits, i, plan) => HandlerProgress(s, choice);
    case _ =>
  }

  lemma HandlerProgress(s: State, choice: bool)
    requires Owned(s) && s.worker.Handling? && s.lock != ByUi && CanWork(s)
    ensures Rank(WorkStep(s, choice)) < Rank(s) && WorkStep(s, choice).lock != ByUi
  {
    hide Sound, Meets, Needs, Handler, SecondPlan, MemStep;
    if s.worker.plan.Do? && s.worker.plan.op == Branch { SecondWeight(choice); }
  }

  /** Where the worker can stop: it has exited, or it sleeps and nothing is owed unless a post is half done. */
  ghost predicate AtRest(s: State) {
    s.worker.Exited? ||
    (s.worker.Waiting? && !s.stop && !s.event
     && (s.ui == Posting || (s.mask == {} && forall b :: 0 <= b < TABLE ==> !Owed(s.log, b))))
  }

  lemma StuckIsAtRest(s: State)
    requires Inv(s) && s.lock != ByUi && !CanWork(s)
    ensures AtRest(s)
  {}

  /** While the UI leaves the lock alone, every run of the worker is bounded, and it ends only at rest. */
  lemma {:induction false} WorkerRunsEnd(s: State, steps: seq<Step>)
    requires Inv(s) && s.lock != ByUi
    requires (forall t :: t in steps ==> t.Work?) && Run(s, steps).Some?
    ensures |steps| <= Rank(s)
    ensures var t := Run(s, steps).value; t.lock != ByUi && t.ui == s.ui && Inv(t) && (CanWork(t) || AtRest(t))
    decreases |steps|
  {
    hide Inv, Rank, AtRest;
    if steps == [] {
      if !CanWork(s) { StuckIsAtRest(s); }
    } else {
      WorkerProgress(s, steps[0].choice);
      StepKeepsInv(s, steps[0]);
      WorkerRunsEnd(Next(s, steps[0]), steps[1..]);
    }
  }

  /** While the UI waits for the join, the worker is never stuck and every action brings its exit nearer. */
  lemma JoiningProgress(s: State, choice: bool)
    requires Inv(s) && s.ui.Joining? && !s.worker.Exited?
    ensures CanWork(s) && Rank(WorkStep(s, choice)) < Rank(s)
  {
    hide BitsKept, BitsSignalled, InitTracked, InitPlaced, HandlersTracked, Sound, Rank;
    if CanWork(s) { WorkerProgress(s, choice); } else { StuckIsAtRest(s); }
  }

  /** Every run of the worker from the wait for the join is bounded, and only its exit ends it. */
  lemma JoinTerminates(s: State, steps: seq<Step>)
    requires Inv(s) && s.ui.Joining?
    requires (forall t :: t in steps ==> t.Work?) && Run(s, steps).Some?
    ensures |steps| <= Rank(s)
    ensures var t := Run(s, steps).value; CanWork(t) || t.worker.Exited?
  {
    hide BitsKept, BitsSignalled, InitTracked, InitPlaced, HandlersTracked, Sound, Rank, Run;
    WorkerRunsEnd(s, steps);
  }
}
