/** Snapshots of the refresh read without the lock. */
module RefreshCopies {
  import opened CStrings
  import opened Refresh
  import opened RefreshRun
  import opened RefreshResults

  // ----- replacement -----

  /** Left alone, a handler that has built its snapshot publishes it and frees the one before: a pointer
      read outside the lock can be dead four actions later. */
  lemma SwapReplaces(s: State, x: Slot)
    requires Inv(s) && s.worker.Handling? && s.worker.plan == SwapBuilt(x) && s.lock == Unlocked
    ensures var r := Run(s, [Work(true), Work(true), Work(true), Work(true)]);
      && r.Some? && r.value.worker == s.worker.(plan := Done) && r.value.lock == Unlocked && r.value.ui == s.ui
      && (if Built(x) in s.mem.ptr
          then Published(x) in r.value.mem.ptr && r.value.mem.ptr[Published(x)] == s.mem.ptr[Built(x)]
          else Published(x) !in r.value.mem.ptr)
      && (Published(x) in s.mem.ptr ==> s.mem.ptr[Published(x)] !in r.value.mem.live)
  {
    hide BitsKept, BitsSignalled, Stopping, InitTracked, InitPlaced, HandlersTracked, Sound, Meets, Needs;
    var a := Next(s, Work(true));
    var b := Next(a, Work(true));
    var c := Next(b, Work(true));
    var d := Next(c, Work(true));
    assert a == s.(lock := Exclusive, worker := s.worker.(plan := s.worker.plan.next));
    assert Can(a, Work(true)) && Can(b, Work(true)) && Can(c, Work(true));
    assert Run(d, []) == Some(d);
    assert Run(c, [Work(true)]) == Some(d);
    assert Run(b, [Work(true), Work(true)]) == Some(d);
    assert Run(a, [Work(true), Work(true), Work(true)]) == Some(d);
  }

  /** A step that takes what is published in a slot away: a swap or a take by the worker, or a free at exit. */
  predicate Replaces(s: State, t: Step, x: Slot) {
    match t
    case Work(_) =>
      s.worker.Handling? && s.worker.plan.Do? && (s.worker.plan.op == Swap(x) || s.worker.plan.op == Take(x))
    case FreeNext => s.ui.Releasing? && s.ui.k < |EXIT_ORDER| && EXIT_ORDER[s.ui.k] == x
    case _ => false
  }

  predicate NeverReplaced(s: State, steps: seq<Step>, x: Slot)
    decreases |steps|
  {
    steps == [] || (!Replaces(s, steps[0], x) && NeverReplaced(Next(s, steps[0]), steps[1..], x))
  }

  /** The slot holds this snapshot. */
  predicate Holds(s: State, x: Slot, id: nat) {
    Published(x) in s.mem.ptr && s.mem.ptr[Published(x)] == id
  }

  /** Lock or no lock, what the UI has seen published stays published exactly as long as no step replaces it,
      and is live as long as that. */
  lemma {:induction false} CopyStaysExactly(s: State, steps: seq<Step>, x: Slot, id: nat)
    requires Inv(s) && Holds(s, x, id) && Run(s, steps).Some?
    ensures var t := Run(s, steps).value; Holds(t, x, id) <==> NeverReplaced(s, steps, x)
    ensures NeverReplaced(s, steps, x) ==> id in Run(s, steps).value.mem.live
    decreases |steps|
  {
    hide BitsKept, BitsSignalled, InitTracked, InitPlaced, HandlersTracked, Replaces;
    if steps != [] {
      StepKeepsInv(s, steps[0]);
      if Replaces(s, steps[0], x) {
        CopyLeaves(s, steps[0], x, id);
        NeverBack(Next(s, steps[0]), steps[1..], x, id);
      } else {
        CopyStep(s, steps[0], x);
        CopyStaysExactly(Next(s, steps[0]), steps[1..], x, id);
      }
    }
  }

  /** The snapshot is no longer published and on its way out: at most the old pointer of its slot holds it. */
  ghost predicate Left(m: Memory, x: Slot, id: nat) {
    id < m.next && forall c :: c in m.ptr && m.ptr[c] == id ==> c == Stale(x)
  }

  lemma CopyLeaves(s: State, t: Step, x: Slot, id: nat)
    requires Inv(s) && Can(s, t) && Replaces(s, t, x) && Holds(s, x, id)
    ensures Left(Next(s, t).mem, x, id)
  {
    hide BitsKept, BitsSignalled, InitTracked, InitPlaced, HandlersTracked, Needs, Meets, Left, Sound, Stopping;
    if t.Work? { SwapLeaves(s.mem, s.worker.plan.op, t.choice, x, id); } else { FreeLeaves(s.mem, x, id); }
  }

  lemma SwapLeaves(m: Memory, op: Op, choice: bool, x: Slot, id: nat)
    requires Sound(m) && Published(x) in m.ptr && m.ptr[Published(x)] == id && (op == Swap(x) || op == Take(x))
    ensures Left(MemStep(m, op, choice), x, id)
  {}

  lemma FreeLeaves(m: Memory, x: Slot, id: nat)
    requires Sound(m) && Published(x) in m.ptr && m.ptr[Published(x)] == id
    ensures Left(FreeCell(m, Published(x)), x, id)
  {}

  lemma LeftMem(m: Memory, op: Op, choice: bool, x: Slot, id: nat)
    requires Left(m, x, id)
    ensures Left(MemStep(m, op, choice), x, id)
  {}

  lemma LeftFree(m: Memory, c: Cell, x: Slot, id: nat)
    requires Left(m, x, id)
    ensures Left(FreeCell(m, c), x, id)
  {}

  lemma LeftStep(s: State, t: Step, x: Slot, id: nat)
    requires Can(s, t) && Left(s.mem, x, id)
    ensures Left(Next(s, t).mem, x, id)
  {
    hide Left, MemStep, FreeCell;
    if t.Work? && s.worker.Handling? && s.worker.plan.Do? { LeftMem(s.mem, s.worker.plan.op, t.choice, x, id); }
    if t.FreeNext? && s.ui.k < |EXIT_ORDER| { LeftFree(s.mem, Published(EXIT_ORDER[s.ui.k]), x, id); }
  }

  lemma {:induction false} NeverBack(s: State, steps: seq<Step>, x: Slot, id: nat)
    requires Left(s.mem, x, id) && Run(s, steps).Some?
    ensures Left(Run(s, steps).value.mem, x, id)
    decreases |steps|
  {
    hide Left;
    if steps != [] {
      LeftStep(s, steps[0], x, id);
      NeverBack(Next(s, steps[0]), steps[1..], x, id);
    }
  }

  lemma CopyStep(s: State, t: Step, x: Slot)
    requires Inv(s) && Published(x) in s.mem.ptr && Can(s, t) && !Replaces(s, t, x)
    ensures var n := Next(s, t); Published(x) in n.mem.ptr && n.mem.ptr[Published(x)] == s.mem.ptr[Published(x)]
  {
    hide BitsKept, BitsSignalled, InitTracked, InitPlaced, HandlersTracked, Sound, MemStep, Meets;
    if t.Work? && s.worker.Handling? && s.worker.plan.Do? { CopyMem(s.mem, s.worker.plan, t.choice, x); }
  }

  lemma CopyMem(m: Memory, p: Plan, choice: bool, x: Slot)
    requires p.Do? && Meets(m, Needs(p)) && Published(x) in m.ptr && p.op != Swap(x) && p.op != Take(x)
    ensures var n := MemStep(m, p.op, choice); Published(x) in n.ptr && n.ptr[Published(x)] == m.ptr[Published(x)]
  {}

  /** The battery handler, from its start in a reachable state to the build of its snapshot. */
  lemma ReachBuilt(s: State) returns (t: State)
    requires Reachable(s) && s.worker.Handling? && s.worker.plan == BuildAndSwap(Battery)
    ensures Reachable(t) && t.worker == s.worker.(plan := SwapBuilt(Battery)) && t.lock == s.lock && t.ui == s.ui
    ensures Built(Battery) in t.mem.ptr
    ensures Published(Battery) in s.mem.ptr ==> Published(Battery) in t.mem.ptr
  {
    hide Reachable;
    t := WorkStep(s, true);
    ReachWork(s);
  }

  /** The minute handler has published a battery snapshot and the power handler, posted with it, has built the next. */
  lemma BatteryRun() returns (s: State)
    ensures Reachable(s) && s.ui == Idle && s.lock == Unlocked && Published(Battery) in s.mem.ptr
    ensures s.worker.Handling? && s.worker.plan == SwapBuilt(Battery)
  {
    hide Reachable, Handler, Inv, Run;
    var bits := {1, 4};
    var a := PostAndSignal(Init(false), bits);
    ReachInit(false);
    ReachPost(Init(false), bits);
    assert a.mask == bits;
    assert Handler(1) == Handler(4) == BuildAndSwap(Battery) by { BatteryHandlers(); }
    var b := ReachFirst(a);
    var c := ReachBuilt(b);
    ReachableInv(c);
    SwapReplaces(c, Battery);
    ReachRun(c, [Work(true), Work(true), Work(true), Work(true)]);
    var d := Run(c, [Work(true), Work(true), Work(true), Work(true)]).value;
    var e := WorkStep(d, true);
    ReachWork(d);
    var f := WorkStep(e, true);
    ReachWork(e);
    var g := WorkStep(f, true);
    ReachWork(f);
    var h := WorkStep(g, true);
    ReachWork(g);
    s := ReachBuilt(h);
  }

  lemma BatteryHandlers()
    ensures Handler(1) == Handler(4) == BuildAndSwap(Battery)
  {}

  /** So the tray menu, which reads the battery snapshot with no lock, can hold a pointer that is freed under it. */
  lemma UnlockedCopyDies() returns (s: State, steps: seq<Step>)
    ensures Reachable(s) && s.ui == Idle && s.lock == Unlocked && Published(Battery) in s.mem.ptr
    ensures (forall t :: t in steps ==> t.Work?) && Run(s, steps).Some?
    ensures s.mem.ptr[Published(Battery)] in s.mem.live
    ensures s.mem.ptr[Published(Battery)] !in Run(s, steps).value.mem.live
  {
    hide Reachable, Run;
    s := BatteryRun();
    ReachableInv(s);
    SwapReplaces(s, Battery);
    steps := [Work(true), Work(true), Work(true), Work(true)];
  }

  // ----- when an unlocked read is safe -----

  /** The table bits whose handlers replace what is published in a slot. */
  function Replacers(x: Slot): set<nat> {
    match x
    case Battery => {1, 4}
    case Disk => {2}
    case Edid => {3}
    case Gpu => {3}
    case Smb => {5}
    case Spd => {6}
    case _ => {0}
  }

  /** The plan still swaps or takes what is published in the slot, or can branch to do so. */
  predicate SwapsAhead(p: Plan, x: Slot) {
    p.Do? &&
    (p.op == Swap(x) || p.op == Take(x) || (p.op == Branch && Replacers(x) == {0}) || SwapsAhead(p.next, x))
  }

  lemma SwapsStep(op: Op, next: Plan, x: Slot)
    ensures SwapsAhead(Do(op, next), x) <==>
      op == Swap(x) || op == Take(x) || (op == Branch && Replacers(x) == {0}) || SwapsAhead(next, x)
    ensures !SwapsAhead(Done, x)
  {}

  lemma BuildAndSwapSwaps(y: Slot, x: Slot)
    ensures SwapsAhead(BuildAndSwap(y), x) <==> x == y
  {
    hide SwapsAhead;
    SwapsStep(Free(y), Done, x);
    SwapsStep(UnlockExclusive, Do(Free(y), Done), x);
    SwapsStep(Swap(y), Do(UnlockExclusive, Do(Free(y), Done)), x);
    SwapsStep(LockExclusive, Do(Swap(y), Do(UnlockExclusive, Do(Free(y), Done))), x);
    SwapsStep(Build(y), SwapBuilt(y), x);
  }

  /** The sensor view replaces the sensors, the other views network, processor and audio. */
  lemma SecondSwaps(sensorView: bool, x: Slot)
    ensures SwapsAhead(SecondPlan(sensorView), x) <==>
      if sensorView then x == Sensors else x in {Network, CpuInfo, Audio}
  {
    hide SwapsAhead;
    if sensorView {
      BuildAndSwapSwaps(Sensors, x);
      SwapsStep(Ensure(Gpu), BuildAndSwap(Sensors), x);
    } else {
      var free := Do(Free(Network), Do(Free(Audio), Do(Free(CpuInfo), Done)));
      SwapsStep(Free(CpuInfo), Done, x);
      SwapsStep(Free(Audio), Do(Free(CpuInfo), Done), x);
      SwapsStep(Free(Network), Do(Free(Audio), Do(Free(CpuInfo), Done)), x);
      SwapsStep(UnlockExclusive, free, x);
      var c := Do(Swap(Audio), Do(UnlockExclusive, free));
      SwapsStep(Swap(Audio), Do(UnlockExclusive, free), x);
      SwapsStep(Swap(CpuInfo), c, x);
      var a := Do(Swap(Network), Do(Swap(CpuInfo), c));
      SwapsStep(Swap(Network), Do(Swap(CpuInfo), c), x);
      SwapsStep(LockExclusive, a, x);
      SwapsStep(Build(Audio), Do(LockExclusive, a), x);
      var b := Do(Build(Audio), Do(LockExclusive, a));
      SwapsStep(Build(CpuInfo), b, x);
      SwapsStep(Build(Network), Do(Build(CpuInfo), b), x);
      var d := Do(Build(Network), Do(Build(CpuInfo), b));
      SwapsStep(UnlockShared, d, x);
      SwapsStep(LockShared, Do(UnlockShared, d), x);
    }
  }

  /** A handler replaces what is published in a slot exactly when its bit is one of the slot's. */
  lemma HandlerSwaps(b: nat, x: Slot)
    requires b < TABLE
    ensures SwapsAhead(Handler(b), x) <==> b in Replacers(x)
  {
    hide SwapsAhead;
    match b
    case 0 =>
      SwapsStep(Branch, Done, x);
      SwapsStep(UnlockShared, Do(Branch, Done), x);
      SwapsStep(LockShared, Do(UnlockShared, Do(Branch, Done)), x);
    case 3 =>
      var free := Do(Publish(Gpu), Do(Free(Edid), Done));
      SwapsStep(Free(Edid), Done, x);
      SwapsStep(Publish(Gpu), Do(Free(Edid), Done), x);
      SwapsStep(Build(Gpu), free, x);
      SwapsStep(UnlockExclusive, Do(Build(Gpu), free), x);
      var swap := Do(Swap(Edid), Do(UnlockExclusive, Do(Build(Gpu), free)));
      SwapsStep(Swap(Edid), Do(UnlockExclusive, Do(Build(Gpu), free)), x);
      SwapsStep(Free(Gpu), swap, x);
      SwapsStep(Take(Gpu), Do(Free(Gpu), swap), x);
      var take := Do(LockExclusive, Do(Take(Gpu), Do(Free(Gpu), swap)));
      SwapsStep(LockExclusive, Do(Take(Gpu), Do(Free(Gpu), swap)), x);
      SwapsStep(ResetInit, take, x);
      SwapsStep(Build(Edid), Do(ResetInit, take), x);
    case _ =>
      var slot := if b == 2 then Disk else if b == 5 then Smb else if b == 6 then Spd else Battery;
      BuildAndSwapSwaps(slot, x);
      var swap := BuildAndSwap(slot);
      SwapsStep(UnlockShared, swap, x);
      SwapsStep(LockShared, Do(UnlockShared, swap), x);
      SwapsStep(ResetInit, Do(LockShared, Do(UnlockShared, swap)), x);
  }

  /** Among the bits is one of the slot's, at this table entry or a later one. */
  predicate BitFrom(bits: set<nat>, i: nat, x: Slot) {
    exists b :: b in bits && i <= b < TABLE && b in Replacers(x)
  }

  /** What is ahead of a worker with this mask. */
  predicate AheadOf(mask: set<nat>, w: Worker, x: Slot) {
    BitFrom(mask, 0, x) ||
    match w
    case Running(bits, i) => BitFrom(bits, i, x)
    case Handling(bits, i, plan) => BitFrom(bits, i + 1, x) || SwapsAhead(plan, x)
    case _ => false
  }

  /** Some posted and unserved bit, or the handler in hand, will replace what is published in the slot. */
  predicate Ahead(s: State, x: Slot) {
    AheadOf(s.mask, s.worker, x)
  }

  lemma AheadMeans(s: State, x: Slot)
    ensures Ahead(s, x) <==>
      || (exists b :: b in Replacers(x) && (b in s.mask || Pending(s.worker, b)))
      || (s.worker.Handling? && SwapsAhead(s.worker.plan, x))
  {
    hide SwapsAhead;
    SlotBits(x);
    if BitFrom(s.mask, 0, x) {
      var b :| b in s.mask && 0 <= b < TABLE && b in Replacers(x);
    }
  }

  lemma SlotBits(x: Slot)
    ensures forall b :: b in Replacers(x) ==> b < TABLE
  {}

  predicate OnlyWork(steps: seq<Step>) {
    forall i :: 0 <= i < |steps| ==> steps[i].Work?
  }

  lemma BitFromStep(bits: set<nat>, i: nat, x: Slot)
    ensures i < TABLE ==> (BitFrom(bits, i, x) <==> BitFrom(bits, i + 1, x) || (i in bits && i in Replacers(x)))
    ensures i >= TABLE ==> !BitFrom(bits, i, x)
    ensures !BitFrom({}, i, x)
  {}

  lemma PlanStep(plan: Plan, choice: bool, x: Slot)
    requires plan.Do? && (plan.op == Branch ==> plan.next.Done?)
    ensures plan.op == Branch ==>
      (SwapsAhead(SecondPlan(choice), x) ==> SwapsAhead(plan, x)) &&
      (SwapsAhead(plan, x) && choice == (x == Sensors) ==> SwapsAhead(SecondPlan(choice), x))
    ensures plan.op != Branch ==>
      (SwapsAhead(plan, x) <==> plan.op == Swap(x) || plan.op == Take(x) || SwapsAhead(plan.next, x))
  {
    hide SwapsAhead;
    SwapsStep(plan.op, plan.next, x);
    SecondSwaps(choice, x);
  }

  /** The worker and the mask after an action. */
  function Moved(mask: set<nat>, w: Worker, choice: bool): (set<nat>, Worker) {
    match w
    case Draining => ({}, if mask == {} then Finishing else Running(mask, 0))
    case Running(bits, i) =>
      (mask, if i >= TABLE then Draining else if i in bits then Handling(bits, i, Handler(i)) else Running(bits, i + 1))
    case Handling(bits, i, plan) =>
      (mask, if plan.Done? then Running(bits, i + 1)
             else Handling(bits, i, if plan.op == Branch then SecondPlan(choice) else plan.next))
    case _ => (mask, w)
  }

  predicate PlanReplaces(w: Worker, x: Slot) {
    w.Handling? && w.plan.Do? && (w.plan.op == Swap(x) || w.plan.op == Take(x))
  }

  lemma MovedIs(s: State, choice: bool, x: Slot)
    requires CanWork(s)
    ensures s.worker.Waiting? ==> WorkStep(s, choice).worker in {Draining, Exited} && WorkStep(s, choice).mask == s.mask
    ensures s.worker.Finishing? ==> WorkStep(s, choice).worker == Waiting && WorkStep(s, choice).mask == s.mask
    ensures !s.worker.Waiting? && !s.worker.Finishing? ==>
      (WorkStep(s, choice).mask, WorkStep(s, choice).worker) == Moved(s.mask, s.worker, choice)
    ensures Replaces(s, Work(choice), x) <==> PlanReplaces(s.worker, x)
  {
    hide Handler, SecondPlan, MemStep;
  }

  lemma AheadMoved(mask: set<nat>, w: Worker, choice: bool, x: Slot)
    requires w.Handling? && w.plan.Do? && w.plan.op == Branch ==> w.plan.next.Done?
    ensures var (m, v) := Moved(mask, w, choice);
      && (AheadOf(m, v, x) ==> AheadOf(mask, w, x))
      && (AheadOf(mask, w, x) && choice == (x == Sensors) ==> AheadOf(m, v, x) || PlanReplaces(w, x))
    ensures PlanReplaces(w, x) ==> AheadOf(mask, w, x)
  {
    hide SwapsAhead, Replacers, BitFrom, Handler, SecondPlan;
    BitFromStep({}, 0, x);
    match w
    case Running(bits, i) =>
      BitFromStep(bits, i, x);
      if i < TABLE { HandlerSwaps(i, x); }
    case Handling(bits, i, plan) => if plan.Do? { PlanStep(plan, choice, x); } else { SwapsStep(Branch, plan, x); }
    case _ =>
  }

  /** How what is ahead changes with an action of the worker. */
  lemma AheadStep(s: State, choice: bool, x: Slot)
    requires CanWork(s)
    requires s.worker.Handling? && s.worker.plan.Do? && s.worker.plan.op == Branch ==> s.worker.plan.next.Done?
    ensures Ahead(WorkStep(s, choice), x) ==> Ahead(s, x)
    ensures Replaces(s, Work(choice), x) ==> Ahead(s, x)
    ensures Ahead(s, x) && choice == (x == Sensors) ==> Ahead(WorkStep(s, choice), x) || Replaces(s, Work(choice), x)
  {
    MovedIs(s, choice, x);
    AheadMoved(s.mask, s.worker, choice, x);
    hide SwapsAhead, BitFrom, WorkStep, Replaces, PlanReplaces, Moved;
  }

  /** If nothing is ahead, no action of the worker replaces the snapshot or puts a replacement ahead. */
  lemma NothingAhead(s: State, choice: bool, x: Slot)
    requires Inv(s) && CanWork(s) && !Ahead(s, x)
    ensures !Replaces(s, Work(choice), x) && !Ahead(WorkStep(s, choice), x)
  {
    hide Ahead, Replaces, BitsKept, BitsSignalled, Stopping, InitTracked, InitPlaced, HandlersTracked, Sound;
    AheadStep(s, choice, x);
  }

  lemma {:induction false} SafeRun(s: State, steps: seq<Step>, x: Slot)
    requires Inv(s) && !Ahead(s, x) && OnlyWork(steps) && Run(s, steps).Some?
    ensures NeverReplaced(s, steps, x)
    decreases |steps|
  {
    hide Inv, Ahead, Replaces;
    if steps != [] {
      NothingAhead(s, steps[0].choice, x);
      StepKeepsInv(s, steps[0]);
      SafeRun(Next(s, steps[0]), steps[1..], x);
    }
  }

  /** The snapshot is doomed: still published with a replacement ahead, or on its way out. */
  ghost predicate Doomed(s: State, x: Slot, id: nat) {
    (Holds(s, x, id) && Ahead(s, x)) || Left(s.mem, x, id)
  }

  /** A worker at rest leaves nothing doomed. */
  lemma RestIsSafe(s: State, x: Slot, id: nat)
    requires Inv(s) && s.ui == Idle && AtRest(s) && Doomed(s, x, id)
    ensures id !in s.mem.live
  {
    hide BitsKept, BitsSignalled, InitTracked, InitPlaced, HandlersTracked;
  }

  /** With the branch to the view that replaces the slot, an action of the worker leaves a doomed snapshot doomed. */
  lemma DoomedStep(s: State, x: Slot, id: nat)
    requires Inv(s) && CanWork(s) && Doomed(s, x, id)
    ensures Doomed(WorkStep(s, x == Sensors), x, id)
  {
    hide Ahead, Replaces, BitsKept, BitsSignalled, Stopping, InitTracked, InitPlaced, HandlersTracked, Sound, Left;
    var t := Work(x == Sensors);
    if Left(s.mem, x, id) {
      LeftStep(s, t, x, id);
    } else {
      AheadStep(s, x == Sensors, x);
      if Replaces(s, t, x) { CopyLeaves(s, t, x, id); } else { CopyStep(s, t, x); }
    }
  }

  /** A doomed snapshot is freed by a run of the worker alone. */
  lemma DoomedDies(s: State, x: Slot, id: nat) returns (steps: seq<Step>)
    requires Inv(s) && s.ui == Idle && s.lock != ByUi && Doomed(s, x, id)
    ensures OnlyWork(steps) && Run(s, steps).Some? && id !in Run(s, steps).value.mem.live
    decreases Rank(s)
  {
    hide Inv, Rank, Doomed, AtRest;
    if id !in s.mem.live {
      steps := [];
      assert Run(s, steps) == Some(s);
    } else {
      if !CanWork(s) {
        StuckIsAtRest(s);
        RestIsSafe(s, x, id);
        assert false;
      }
      var t := Work(x == Sensors);
      DoomedStep(s, x, id);
      WorkerProgress(s, x == Sensors);
      StepKeepsInv(s, t);
      var more := DoomedDies(Next(s, t), x, id);
      steps := [t] + more;
      assert steps[1..] == more;
    }
  }

  /** A snapshot that the UI reads without the lock stays live, whatever the worker does meanwhile, exactly when no
      posted bit of its slot is unserved and no handler in hand has the slot's swap ahead. */
  lemma UnlockedReadSafeExactly(s: State, x: Slot)
    requires Inv(s) && s.ui == Idle && s.lock != ByUi && Published(x) in s.mem.ptr
    ensures (forall steps :: OnlyWork(steps) && Run(s, steps).Some? ==>
               s.mem.ptr[Published(x)] in Run(s, steps).value.mem.live)
      <==> !Ahead(s, x)
  {
    hide Inv, Ahead;
    var id := s.mem.ptr[Published(x)];
    if Ahead(s, x) {
      var steps := DoomedDies(s, x, id);
    } else {
      forall steps | OnlyWork(steps) && Run(s, steps).Some?
        ensures id in Run(s, steps).value.mem.live
      {
        SafeRun(s, steps, x);
        CopyStaysExactly(s, steps, x, id);
      }
    }
  }
}
