/** What is published when a handler of the refresh has run to its end. */
module RefreshServed {
  import opened CStrings
  import opened Refresh
  import opened RefreshRun
  import opened RefreshResults

  /** The slots whose snapshots a table entry replaces; the first entry goes by the displayed view. */
  function Replaced(i: nat, sensorView: bool): set<Slot> {
    if i == 0 then if sensorView then {Sensors} else {Network, CpuInfo, Audio}
    else if i == 1 || i == 4 then {Battery}
    else if i == 2 then {Disk}
    else if i == 3 then {Edid, Gpu}
    else if i == 5 then {Smb}
    else {Spd}
  }

  /** How an action of the worker comes out: a build succeeds for the slots in `ok`, the branch follows the view. */
  function Choice(plan: Plan, ok: set<Slot>, sensorView: bool): bool {
    if plan.Done? then true
    else match plan.op
      case Build(x) => x in ok
      case Ensure(x) => x in ok
      case Branch => sensorView
      case _ => true
  }

  /** The steps stay in the handler in hand, and the worker's actions come out so; the UI may act in between. */
  predicate Serving(s: State, steps: seq<Step>, ok: set<Slot>, sensorView: bool)
    decreases |steps|
  {
    steps == [] ||
    (s.worker.Handling? && !s.worker.plan.Done?
     && (steps[0].Work? ==> steps[0].choice == Choice(s.worker.plan, ok, sensorView))
     && Serving(Next(s, steps[0]), steps[1..], ok, sensorView))
  }

  // ----- one slot -----

  /** What a slot holds compared with the start: the same, a new snapshot, nothing, or the same where there was one. */
  datatype Held = Kept | New | Null | KeptOrNew | KeptOrNull

  /** What is published in the slot, and whether the handler's local pointer holds a new snapshot. */
  datatype SlotView = SlotView(pub: Held, built: bool)

  function SlotStep(v: SlotView, op: Op, x: Slot, ok: bool): SlotView {
    match op
    case Build(y) => if x == y then v.(built := ok) else v
    case Swap(y) => if x == y then SlotView(if v.built then New else Null, false) else v
    case Take(y) => if x == y then v.(pub := Null) else v
    case Publish(y) => if x == y then SlotView(if v.built then New else Null, false) else v
    case Ensure(y) =>
      if x != y || v.pub == New || v.pub == KeptOrNew then v
      else if v.pub == Null then v.(pub := if ok then New else Null)
      else v.(pub := if ok then KeptOrNew else KeptOrNull)
    case _ => v
  }

  /** What the 1 s handler makes of the slot behind its branch. */
  function SecondView(v: SlotView, x: Slot, ok: bool, sensorView: bool): SlotView {
    if x in Replaced(0, sensorView) then SlotView(if ok then New else Null, false)
    else if sensorView then SlotStep(v, Ensure(Gpu), x, ok)
    else v
  }

  /** What the rest of a plan makes of the slot. */
  function Outcome(p: Plan, v: SlotView, x: Slot, ok: bool, sensorView: bool): SlotView {
    if p.Done? then v
    else if p.op == Branch then SecondView(v, x, ok, sensorView)
    else Outcome(p.next, SlotStep(v, p.op, x, ok), x, ok, sensorView)
  }

  /** The memory is as the view of the slot says, compared with the memory at the start. */
  ghost predicate Agrees(start: Memory, m: Memory, x: Slot, v: SlotView) {
    && start.next <= m.next
    && (v.built <==> Built(x) in m.ptr)
    && (v.built ==> m.ptr[Built(x)] >= start.next)
    && match v.pub
       case Kept => Same(start, m, x)
       case New => Fresh(start, m, x)
       case Null => Published(x) !in m.ptr
       case KeptOrNew => if Published(x) in start.ptr then Same(start, m, x) else Fresh(start, m, x)
       case KeptOrNull => Same(start, m, x)
  }

  /** The slot holds what it held at the start. */
  predicate Same(start: Memory, m: Memory, x: Slot) {
    if Published(x) in start.ptr then Published(x) in m.ptr && m.ptr[Published(x)] == start.ptr[Published(x)]
    else Published(x) !in m.ptr
  }

  /** The slot holds a snapshot made since the start. */
  predicate Fresh(start: Memory, m: Memory, x: Slot) {
    Published(x) in m.ptr && m.ptr[Published(x)] >= start.next
  }

  lemma AgreesStep(start: Memory, m: Memory, op: Op, x: Slot, v: SlotView, ok: set<Slot>, choice: bool)
    requires Agrees(start, m, x, v) && (op.Build? || op.Ensure? ==> choice == (op.slot in ok))
    ensures Agrees(start, MemStep(m, op, choice), x, SlotStep(v, op, x, x in ok))
  {}

  lemma OutcomeStep(op: Op, next: Plan, v: SlotView, x: Slot, ok: bool, sensorView: bool)
    ensures Outcome(Done, v, x, ok, sensorView) == v
    ensures Outcome(Do(op, next), v, x, ok, sensorView) ==
      if op == Branch then SecondView(v, x, ok, sensorView)
      else Outcome(next, SlotStep(v, op, x, ok), x, ok, sensorView)
  {}

  lemma ThreeOutcomes(a: Op, b: Op, c: Op, next: Plan, v: SlotView, x: Slot, ok: bool, sensorView: bool)
    requires a != Branch && b != Branch && c != Branch
    ensures Outcome(Do(a, Do(b, Do(c, next))), v, x, ok, sensorView)
         == Outcome(next, SlotStep(SlotStep(SlotStep(v, a, x, ok), b, x, ok), c, x, ok), x, ok, sensorView)
  {
    hide SlotStep;
    OutcomeStep(a, Do(b, Do(c, next)), v, x, ok, sensorView);
    OutcomeStep(b, Do(c, next), SlotStep(v, a, x, ok), x, ok, sensorView);
    OutcomeStep(c, next, SlotStep(SlotStep(v, a, x, ok), b, x, ok), x, ok, sensorView);
  }

  lemma SwapOutcome(y: Slot, v: SlotView, x: Slot, ok: bool, sensorView: bool)
    ensures Outcome(BuildAndSwap(y), v, x, ok, sensorView)
         == if x == y then SlotView(if ok then New else Null, false) else v
  {
    var w := if x == y then SlotView(if ok then New else Null, false) else v;
    ThreeOutcomes(Build(y), LockExclusive, Swap(y), Do(UnlockExclusive, Do(Free(y), Done)), v, x, ok, sensorView);
    hide Outcome;
    OutcomeStep(UnlockExclusive, Do(Free(y), Done), w, x, ok, sensorView);
    OutcomeStep(Free(y), Done, w, x, ok, sensorView);
  }

  /** The two views behind the branch of the 1 s handler. */
  lemma SecondOutcome(v: SlotView, x: Slot, ok: bool, sensorView: bool)
    ensures Outcome(SecondPlan(sensorView), v, x, ok, sensorView) == SecondView(v, x, ok, sensorView)
  {
    hide Outcome;
    if sensorView {
      OutcomeStep(Ensure(Gpu), BuildAndSwap(Sensors), v, x, ok, sensorView);
      SwapOutcome(Sensors, SlotStep(v, Ensure(Gpu), x, ok), x, ok, sensorView);
    } else {
      OtherViews(v, x, ok);
    }
  }

  lemma OtherViews(v: SlotView, x: Slot, ok: bool)
    ensures Outcome(SecondPlan(false), v, x, ok, false) == SecondView(v, x, ok, false)
  {
    hide Outcome;
    var lock := Do(Build(Audio), Do(LockExclusive, Do(Swap(Network), OtherSwaps())));
    var build := Do(UnlockShared, Do(Build(Network), Do(Build(CpuInfo), lock)));
    OutcomeStep(LockShared, build, v, x, ok, false);
    ThreeOutcomes(UnlockShared, Build(Network), Build(CpuInfo), lock, v, x, ok, false);
    var b := if x == Network || x == CpuInfo then v.(built := ok) else v;
    ThreeOutcomes(Build(Audio), LockExclusive, Swap(Network), OtherSwaps(), b, x, ok, false);
    var c := if x == CpuInfo || x == Audio then v.(built := ok)
             else if x == Network then SlotView(if ok then New else Null, false) else v;
    OtherSwapsOutcome(c, x, ok);
  }

  function OtherSwaps(): Plan {
    Do(Swap(CpuInfo), Do(Swap(Audio), Do(UnlockExclusive,
    Do(Free(Network), Do(Free(Audio), Do(Free(CpuInfo), Done))))))
  }

  lemma OtherSwapsOutcome(v: SlotView, x: Slot, ok: bool)
    ensures Outcome(OtherSwaps(), v, x, ok, false)
         == if x == CpuInfo || x == Audio then SlotView(if v.built then New else Null, false) else v
  {
    hide Outcome;
    var free := Do(Free(Network), Do(Free(Audio), Do(Free(CpuInfo), Done)));
    ThreeOutcomes(Swap(CpuInfo), Swap(Audio), UnlockExclusive, free, v, x, ok, false);
    var w := if x == CpuInfo || x == Audio then SlotView(if v.built then New else Null, false) else v;
    ThreeOutcomes(Free(Network), Free(Audio), Free(CpuInfo), Done, w, x, ok, false);
    OutcomeStep(Branch, Done, w, x, ok, false);
  }

  /** What a handler makes of a slot, from its start to its end. */
  lemma HandlerOutcome(i: nat, x: Slot, ok: bool, sensorView: bool)
    requires i < TABLE
    ensures Outcome(Handler(i), SlotView(Kept, false), x, ok, sensorView) == SlotView(
      if x in Replaced(i, sensorView) then if ok then New else Null
      else if i == 0 && sensorView && x == Gpu then if ok then KeptOrNew else KeptOrNull
      else Kept, false)
  {
    hide Outcome;
    var v := SlotView(Kept, false);
    match i
    case 0 => ThreeOutcomesToBranch(v, x, ok, sensorView);
    case 3 => DisplayOutcome(x, ok, sensorView);
    case _ =>
      var slot := if i == 2 then Disk else if i == 5 then Smb else if i == 6 then Spd else Battery;
      SwapOutcome(slot, v, x, ok, sensorView);
      ThreeOutcomes(ResetInit, LockShared, UnlockShared, BuildAndSwap(slot), v, x, ok, sensorView);
  }

  lemma ThreeOutcomesToBranch(v: SlotView, x: Slot, ok: bool, sensorView: bool)
    ensures Outcome(Do(LockShared, Do(UnlockShared, Do(Branch, Done))), v, x, ok, sensorView)
         == SecondView(v, x, ok, sensorView)
  {
    hide Outcome;
    OutcomeStep(LockShared, Do(UnlockShared, Do(Branch, Done)), v, x, ok, sensorView);
    OutcomeStep(UnlockShared, Do(Branch, Done), v, x, ok, sensorView);
    OutcomeStep(Branch, Done, v, x, ok, sensorView);
  }

  lemma DisplayOutcome(x: Slot, ok: bool, sensorView: bool)
    ensures Outcome(Handler(3), SlotView(Kept, false), x, ok, sensorView)
         == SlotView(if x == Edid || x == Gpu then if ok then New else Null else Kept, false)
  {
    hide Outcome;
    var v := SlotView(Kept, false);
    var end := Do(Build(Gpu), Do(Publish(Gpu), Do(Free(Edid), Done)));
    var swap := Do(Free(Gpu), Do(Swap(Edid), Do(UnlockExclusive, end)));
    var take := Do(LockExclusive, Do(Take(Gpu), swap));
    var a := if x == Edid then v.(built := ok) else v;
    OutcomeStep(Build(Edid), Do(ResetInit, take), v, x, ok, sensorView);
    OutcomeStep(ResetInit, take, a, x, ok, sensorView);
    OutcomeStep(LockExclusive, Do(Take(Gpu), swap), a, x, ok, sensorView);
    OutcomeStep(Take(Gpu), swap, a, x, ok, sensorView);
    var b := if x == Gpu then SlotView(Null, false) else a;
    ThreeOutcomes(Free(Gpu), Swap(Edid), UnlockExclusive, end, b, x, ok, sensorView);
    var c := if x == Edid then SlotView(if ok then New else Null, false) else b;
    ThreeOutcomes(Build(Gpu), Publish(Gpu), Free(Edid), Done, c, x, ok, sensorView);
    OutcomeStep(Branch, Done, if x == Gpu then SlotView(if ok then New else Null, false) else c, x, ok, sensorView);
  }

  // ----- runs -----

  lemma ServingStep(start: Memory, s: State, t: Step, x: Slot, v: SlotView, ok: set<Slot>, sensorView: bool)
    returns (w: SlotView)
    requires Inv(s) && Can(s, t) && s.worker.Handling? && !s.worker.plan.Done? && Agrees(start, s.mem, x, v)
    requires t.Work? ==> t.choice == Choice(s.worker.plan, ok, sensorView)
    ensures var n := Next(s, t);
      && n.worker.Handling? && Agrees(start, n.mem, x, w)
      && Outcome(n.worker.plan, w, x, x in ok, sensorView) == Outcome(s.worker.plan, v, x, x in ok, sensorView)
  {
    hide BitsKept, BitsSignalled, InitTracked, InitPlaced, HandlersTracked, Sound, Meets, Agrees, Outcome, SlotStep,
      MemStep, SecondPlan;
    w := v;
    var plan := s.worker.plan;
    if t.Work? {
      OutcomeStep(plan.op, plan.next, v, x, x in ok, sensorView);
      if plan.op == Branch {
        SecondOutcome(v, x, x in ok, sensorView);
      } else {
        AgreesStep(start, s.mem, plan.op, x, v, ok, t.choice);
        w := SlotStep(v, plan.op, x, x in ok);
      }
    }
  }

  lemma {:induction false} ServingRun(start: Memory, s: State, steps: seq<Step>, x: Slot, v: SlotView, ok: set<Slot>,
      sensorView: bool) returns (w: SlotView)
    requires Inv(s) && s.worker.Handling? && Run(s, steps).Some? && Serving(s, steps, ok, sensorView)
    requires Agrees(start, s.mem, x, v)
    ensures var t := Run(s, steps).value;
      && t.worker.Handling? && Agrees(start, t.mem, x, w)
      && Outcome(t.worker.plan, w, x, x in ok, sensorView) == Outcome(s.worker.plan, v, x, x in ok, sensorView)
    decreases |steps|
  {
    hide Inv, Agrees, Outcome;
    w := v;
    if steps != [] {
      var u := ServingStep(start, s, steps[0], x, v, ok, sensorView);
      StepKeepsInv(s, steps[0]);
      w := ServingRun(start, Next(s, steps[0]), steps[1..], x, u, ok, sensorView);
    }
  }

  /** Whatever the UI does meanwhile, when a handler of the table has run from its start to its end, each slot it
      replaces holds a snapshot made during that run, or null if its build failed; on the sensor view the GPU list is
      made if there was none; every other slot is as it was. */
  lemma HandlerPublishes(s: State, steps: seq<Step>, ok: set<Slot>, sensorView: bool, x: Slot)
    requires Inv(s) && s.worker.Handling? && s.worker.plan == Handler(s.worker.i)
    requires Run(s, steps).Some? && Serving(s, steps, ok, sensorView)
    requires Run(s, steps).value.worker.Handling? && Run(s, steps).value.worker.plan.Done?
    ensures var m, i := Run(s, steps).value.mem, s.worker.i;
      if x in Replaced(i, sensorView) then if x in ok then Fresh(s.mem, m, x) else Published(x) !in m.ptr
      else if i == 0 && sensorView && x == Gpu && x in ok && Published(x) !in s.mem.ptr then Fresh(s.mem, m, x)
      else Same(s.mem, m, x)
  {
    hide BitsKept, BitsSignalled, InitTracked, InitPlaced, HandlersTracked, Sound, Outcome, Handler, Run, Serving;
    var v := SlotView(Kept, false);
    HandlersDisciplined(s.worker.i);
    assert Agrees(s.mem, s.mem, x, v);
    var w := ServingRun(s.mem, s, steps, x, v, ok, sensorView);
    HandlerOutcome(s.worker.i, x, x in ok, sensorView);
    OutcomeStep(Branch, Done, w, x, x in ok, sensorView);
  }

  /** A new snapshot is live. */
  lemma FreshIsLive(s: State, start: Memory, x: Slot)
    requires Inv(s) && Fresh(start, s.mem, x)
    ensures s.mem.ptr[Published(x)] in s.mem.live
  {
    hide BitsKept, BitsSignalled, InitTracked, InitPlaced, HandlersTracked;
  }

  /** While the UI leaves the lock alone, the worker can run a handler to its end, whatever its builds come to. */
  lemma HandlerEnds(s: State, ok: set<Slot>, sensorView: bool) returns (steps: seq<Step>)
    requires Inv(s) && s.worker.Handling? && s.lock != ByUi
    ensures Run(s, steps).Some? && Serving(s, steps, ok, sensorView)
    ensures Run(s, steps).value.worker.Handling? && Run(s, steps).value.worker.plan.Done?
    decreases Rank(s)
  {
    hide Inv, Rank;
    steps := [];
    if !s.worker.plan.Done? {
      if !CanWork(s) {
        StuckIsAtRest(s);
        assert false;
      }
      var t := Work(Choice(s.worker.plan, ok, sensorView));
      WorkerProgress(s, t.choice);
      StepKeepsInv(s, t);
      var more := HandlerEnds(Next(s, t), ok, sensorView);
      steps := [t] + more;
      assert steps[1..] == more;
    }
  }
}
