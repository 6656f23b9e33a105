/** Runs of the two refresh threads, and what holds in every reachable state. */
module RefreshRun {
  import opened CStrings
  import opened Refresh

  // ----- memory -----

  /** A pointer variable: published in the context, or a handler's local or old copy. */
  datatype Cell = Published(slot: Slot) | Built(slot: Slot) | Stale(slot: Slot)

  /** Non-null pointers, snapshots allocated and not freed, every free so far, and the next fresh snapshot. */
  datatype Memory = Memory(ptr: map<Cell, nat>, live: set<nat>, freed: multiset<nat>, next: nat)

  function Alloc(m: Memory, c: Cell): Memory {
    m.(ptr := m.ptr[c := m.next], live := m.live + {m.next}, next := m.next + 1)
  }

  /** to = from; from = null */
  function Move(m: Memory, from: Cell, to: Cell): Memory {
    if from in m.ptr then m.(ptr := (m.ptr - {from})[to := m.ptr[from]]) else m.(ptr := m.ptr - {to})
  }

  function FreeCell(m: Memory, c: Cell): Memory {
    if c in m.ptr then
      m.(ptr := m.ptr - {c}, live := m.live - {m.ptr[c]}, freed := m.freed + multiset{m.ptr[c]})
    else m
  }

  /** Every live snapshot is held by exactly one pointer, and every other one ever made was freed exactly once. */
  ghost predicate Sound(m: Memory) {
    && (forall c, d :: c in m.ptr && d in m.ptr && c != d ==> m.ptr[c] != m.ptr[d])
    && (forall c :: c in m.ptr ==> m.ptr[c] in m.live)
    && (forall id :: id in m.live ==> id < m.next && exists c :: c in m.ptr && m.ptr[c] == id)
    && (forall id: nat :: m.freed[id] == if id < m.next && id !in m.live then 1 else 0)
  }

  lemma AllocSound(m: Memory, c: Cell)
    requires Sound(m) && c !in m.ptr
    ensures Sound(Alloc(m, c))
  {
    var n := Alloc(m, c);
    forall id | id in n.live ensures exists d :: d in n.ptr && n.ptr[d] == id {
      if id == m.next {
        assert n.ptr[c] == id;
      } else {
        var d :| d in m.ptr && m.ptr[d] == id;
        assert n.ptr[d] == id;
      }
    }
  }

  lemma MoveSound(m: Memory, from: Cell, to: Cell)
    requires Sound(m) && to !in m.ptr
    ensures Sound(Move(m, from, to))
  {
    var n := Move(m, from, to);
    if from in m.ptr {
      forall id | id in n.live ensures exists d :: d in n.ptr && n.ptr[d] == id {
        var d :| d in m.ptr && m.ptr[d] == id;
        assert n.ptr[if d == from then to else d] == id;
      }
    } else {
      assert n.ptr == m.ptr;
    }
  }

  lemma FreeSound(m: Memory, c: Cell)
    requires Sound(m)
    ensures Sound(FreeCell(m, c))
  {
    var n := FreeCell(m, c);
    if c in m.ptr {
      forall id | id in n.live ensures exists d :: d in n.ptr && n.ptr[d] == id {
        var d :| d in m.ptr && m.ptr[d] == id;
        assert d != c;
        assert n.ptr[d] == id;
      }
    }
  }

  /** What an action of a handler does to the memory. */
  function MemStep(m: Memory, op: Op, choice: bool): Memory {
    match op
    case Build(x) => if choice then Alloc(m, Built(x)) else m.(ptr := m.ptr - {Built(x)})
    case Swap(x) => Move(Move(m, Published(x), Stale(x)), Built(x), Published(x))
    case Take(x) => Move(m, Published(x), Stale(x))
    case Publish(x) => Move(m, Built(x), Published(x))
    case Ensure(x) => if choice && Published(x) !in m.ptr then Alloc(m, Published(x)) else m
    case Free(x) => FreeCell(m, Stale(x))
    case _ => m
  }

  /** The memory is as the rest of a plan expects: only the expected local and old pointers, the expected nulls. */
  ghost predicate Meets(m: Memory, n: Need) {
    && n.Need?
    && (forall x :: Built(x) in m.ptr ==> x in n.built)
    && (forall x :: Stale(x) in m.ptr ==> x in n.stale)
    && (forall x :: x in n.nulls ==> Published(x) !in m.ptr)
  }

  lemma SwapSound(m: Memory, x: Slot, next: Plan)
    requires Sound(m) && Meets(m, Needs(Do(Swap(x), next)))
    ensures Sound(MemStep(m, Swap(x), true)) && Meets(MemStep(m, Swap(x), true), Needs(next))
  {
    hide Sound;
    MoveSound(m, Published(x), Stale(x));
    MoveSound(Move(m, Published(x), Stale(x)), Built(x), Published(x));
  }

  lemma MemStepSound(m: Memory, p: Plan, choice: bool)
    requires Sound(m) && p.Do? && Meets(m, Needs(p))
    ensures Sound(MemStep(m, p.op, choice)) && Meets(MemStep(m, p.op, choice), Needs(p.next))
  {
    hide Sound;
    match p.op
    case Swap(x) => SwapSound(m, x, p.next);
    case Take(x) => MoveSound(m, Published(x), Stale(x));
    case Free(x) => FreeSound(m, Stale(x));
    case _ => OtherSound(m, p, choice);
  }

  lemma OtherSound(m: Memory, p: Plan, choice: bool)
    requires Sound(m) && p.Do? && Meets(m, Needs(p)) && !p.op.Swap? && !p.op.Take? && !p.op.Free?
    ensures Sound(MemStep(m, p.op, choice)) && Meets(MemStep(m, p.op, choice), Needs(p.next))
  {
    hide Sound;
    match p.op
    case Build(x) =>
      if choice { AllocSound(m, Built(x)); } else { assert m.ptr - {Built(x)} == m.ptr; }
    case Publish(x) => MoveSound(m, Built(x), Published(x));
    case Ensure(x) => if choice && Published(x) !in m.ptr { AllocSound(m, Published(x)); }
    case _ =>
  }

  // ----- history -----

  /** What the threads have done, as far as the properties speak of it. */
  datatype Event =
    | Posted(bits: set<nat>, before: set<nat>)            // and what the mask held before the OR
    | Started(entry: nat) | Finished(entry: nat)
    | InitReset | Drained

  /** Table bit b has been posted and no handler of it has started since. */
  predicate Owed(log: seq<Event>, b: nat) {
    if log == [] then false
    else
      var e, init := log[|log| - 1], log[..|log| - 1];
      if e.Posted? && b in e.bits then true
      else if e == Started(b) then false
      else Owed(init, b)
  }

  /** How often bit b has been posted. */
  function Posts(log: seq<Event>, b: nat): nat {
    if log == [] then 0
    else
      var e := log[|log| - 1];
      Posts(log[..|log| - 1], b) + if e.Posted? && b in e.bits then 1 else 0
  }

  /** How often bit b was posted while it already stood in the mask. */
  function Merged(log: seq<Event>, b: nat): nat {
    if log == [] then 0
    else
      var e := log[|log| - 1];
      Merged(log[..|log| - 1], b) + if e.Posted? && b in e.bits && b in e.before then 1 else 0
  }

  /** No post of bit b was merged exactly when each found it clear. */
  lemma {:induction false} MergedMeans(log: seq<Event>, b: nat)
    ensures Merged(log, b) == 0 <==>
      forall p :: 0 <= p < |log| && log[p].Posted? && b in log[p].bits ==> b !in log[p].before
  {
    if log != [] {
      var n := |log| - 1;
      MergedMeans(log[..n], b);
      assert forall p :: 0 <= p < n ==> log[..n][p] == log[p];
    }
  }

  /** How often the handler of bit b has started. */
  function Starts(log: seq<Event>, b: nat): nat {
    if log == [] then 0
    else Starts(log[..|log| - 1], b) + if log[|log| - 1] == Started(b) then 1 else 0
  }

  /** A bit is not owed exactly when every post of it is followed by a start of its handler. */
  lemma {:induction false} OwedMeans(log: seq<Event>, b: nat)
    ensures !Owed(log, b) <==>
      forall p :: 0 <= p < |log| && log[p].Posted? && b in log[p].bits ==>
        exists q :: p < q < |log| && log[q] == Started(b)
  {
    if log != [] {
      var n := |log| - 1;
      var e, init := log[n], log[..n];
      OwedMeans(init, b);
      if e == Started(b) {
        forall p | 0 <= p < |log| && log[p].Posted? && b in log[p].bits
          ensures exists q :: p < q < |log| && log[q] == Started(b)
        {
          assert p < n && log[n] == Started(b);
        }
      } else if !(e.Posted? && b in e.bits) {
        if Owed(init, b) {
          var p :| 0 <= p < n && init[p].Posted? && b in init[p].bits
            && forall q :: p < q < n ==> init[q] != Started(b);
          assert log[p] == init[p];
          forall q | p < q < |log| ensures log[q] != Started(b) {
            if q < n { assert log[q] == init[q]; }
          }
        } else {
          forall p | 0 <= p < |log| && log[p].Posted? && b in log[p].bits
            ensures exists q :: p < q < |log| && log[q] == Started(b)
          {
            assert init[p] == log[p];
            var q :| p < q < n && init[q] == Started(b);
            assert log[q] == Started(b);
          }
        }
      }
    }
  }

  /** The handler that has started and not finished. */
  function Open(log: seq<Event>): Option<nat> {
    if log == [] then None
    else match log[|log| - 1]
      case Started(i) => Some(i)
      case Finished(_) => None
      case _ => Open(log[..|log| - 1])
  }

  /** Handlers run one at a time: each starts when none is open and finishes as the open one. */
  predicate Nested(log: seq<Event>) {
    if log == [] then true
    else
      var e, init := log[|log| - 1], log[..|log| - 1];
      && Nested(init)
      && (e.Started? ==> Open(init) == None)
      && (e.Finished? ==> Open(init) == Some(e.entry))
  }

  /** A started handler is the open one or has finished since. */
  lemma {:induction false} StartedFinishes(log: seq<Event>, q: nat, b: nat)
    requires Nested(log) && q < |log| && log[q] == Started(b)
    ensures Open(log) == Some(b) || exists r :: q < r < |log| && log[r] == Finished(b)
  {
    var n := |log| - 1;
    var init := log[..n];
    if q < n {
      assert init[q] == log[q];
      StartedFinishes(init, q, b);
      if Open(init) == Some(b) {
        assert log[n].Finished? ==> log[n] == Finished(b);
      } else {
        var r :| q < r < n && init[r] == Finished(b);
        assert log[r] == Finished(b);
      }
    }
  }

  /** Some drain has finished and no handler has reset init_done since. */
  predicate Ready(log: seq<Event>) {
    if log == [] then false
    else match log[|log| - 1]
      case Drained => true
      case InitReset => false
      case _ => Ready(log[..|log| - 1])
  }

  /** The handlers of the disks, the displays and the memory modules reset init_done. */
  predicate ResetsInit(b: nat) {
    b == 2 || b == 3 || b == 6
  }

  /** How many resets a plan has ahead. */
  function Resets(p: Plan): nat {
    if p.Done? then 0 else Resets(p.next) + if p.op == ResetInit then 1 else 0
  }

  /** A resetting handler has finished since the last drain ended. */
  predicate ResetServed(log: seq<Event>) {
    if log == [] then false
    else match log[|log| - 1]
      case Finished(b) => ResetsInit(b) || ResetServed(log[..|log| - 1])
      case Drained => false
      case _ => ResetServed(log[..|log| - 1])
  }

  predicate DrainedOnce(log: seq<Event>) {
    exists p :: 0 <= p < |log| && log[p] == Drained
  }

  /** None has exactly when a drain has ended after each of them. */
  lemma {:induction false} ResetServedMeans(log: seq<Event>)
    ensures !ResetServed(log) <==>
      forall p :: 0 <= p < |log| && log[p].Finished? && ResetsInit(log[p].entry) ==>
        exists q :: p < q < |log| && log[q] == Drained
  {
    if log != [] {
      var n := |log| - 1;
      var e, init := log[n], log[..n];
      ResetServedMeans(init);
      if e == Drained {
        assert log[n] == Drained;
      } else if ResetServed(init) {
        var p :| 0 <= p < n && init[p].Finished? && ResetsInit(init[p].entry)
          && forall q :: p < q < n ==> init[q] != Drained;
        assert log[p] == init[p];
        forall q | p < q < |log| ensures log[q] != Drained {
          if q < n { assert log[q] == init[q]; }
        }
      } else if !(e.Finished? && ResetsInit(e.entry)) {
        forall p | 0 <= p < |log| && log[p].Finished? && ResetsInit(log[p].entry)
          ensures exists q :: p < q < |log| && log[q] == Drained
        {
          assert init[p] == log[p];
          var q :| p < q < n && init[q] == Drained;
          assert log[q] == Drained;
        }
      }
    }
  }

  // ----- state -----

  datatype Worker =
    | Waiting                                             // in WaitForMultipleObjects
    | Draining                                            // about to exchange the mask
    | Running(bits: set<nat>, i: nat)                     // in gnwinfo_ctx_run_mask at entry i
    | Handling(bits: set<nat>, i: nat, plan: Plan)        // inside the handler of entry i
    | Finishing                                           // the mask was empty
    | Exited

  datatype Ui =
    | Idle
    | Posting                                             // between its OR and its SetEvent
    | Exiting                                             // update event set, stop event not yet
    | Joining                                             // waiting for the worker
    | Releasing(k: nat)                                   // freeing the published snapshots
    | Gone

  datatype State = State(
    mem: Memory, mask: set<nat>, event: bool, stop: bool, lock: Lock, initDone: bool,
    ui: Ui, worker: Worker, log: seq<Event>)

  /** Just before the first post of gnwinfo_ctx_init: at most the CPU snapshot is published. */
  function Init(cpu: bool): State {
    var empty := Memory(map[], {}, multiset{}, 0);
    State(if cpu then Alloc(empty, Published(CpuInfo)) else empty,
          {}, false, false, Unlocked, false, Idle, Waiting, [])
  }

  const LONG_BITS := 32

  /** The order in which gnwinfo_ctx_exit and NW_Fini free what is published. */
  const EXIT_ORDER: seq<Slot> := [CpuInfo, Audio, Network, Disk, Smb, Spd, Battery, Edid, Sensors, Gpu]

  datatype Step =
    | Post(bits: set<nat>) | Signal                       // gnwinfo_ctx_update
    | Acquire | Release                                   // the UI loop around drawing
    | StopUpdate | StopEvent | Join | FreeNext            // gnwinfo_ctx_exit
    | Work(choice: bool)                                  // one action of the worker

  predicate CanWork(s: State) {
    match s.worker
    case Waiting => s.event || s.stop
    case Handling(_, _, Do(LockShared, _)) => s.lock == Unlocked
    case Handling(_, _, Do(LockExclusive, _)) => s.lock == Unlocked
    case Exited => false
    case _ => true
  }

  predicate Can(s: State, t: Step) {
    match t
    case Post(bits) => s.ui == Idle && bits != {}
    case Signal => s.ui == Posting
    case Acquire => s.ui == Idle && s.lock == Unlocked
    case Release => s.ui == Idle && s.lock == ByUi
    case StopUpdate => s.ui == Idle && s.lock != ByUi
    case StopEvent => s.ui == Exiting
    case Join => s.ui == Joining && s.worker == Exited
    case FreeNext => s.ui.Releasing?
    case Work(_) => CanWork(s)
  }

  function LockStep(l: Lock, op: Op): Lock {
    match op
    case LockShared => Shared
    case LockExclusive => Exclusive
    case UnlockShared => Unlocked
    case UnlockExclusive => Unlocked
    case _ => l
  }

  function WorkStep(s: State, choice: bool): State {
    match s.worker
    case Waiting => if s.event then s.(event := false, worker := Draining) else s.(worker := Exited)
    case Draining => s.(mask := {}, worker := if s.mask == {} then Finishing else Running(s.mask, 0))
    case Running(bits, i) =>
      if i >= TABLE then s.(worker := Draining)
      else if i in bits then s.(worker := Handling(bits, i, Handler(i)), log := s.log + [Started(i)])
      else s.(worker := Running(bits, i + 1))
    case Handling(bits, i, plan) =>
      if plan.Done? then s.(worker := Running(bits, i + 1), log := s.log + [Finished(i)])
      else if plan.op == Branch then s.(worker := Handling(bits, i, SecondPlan(choice)))
      else
        s.(worker := Handling(bits, i, plan.next),
           mem := MemStep(s.mem, plan.op, choice),
           lock := LockStep(s.lock, plan.op),
           initDone := s.initDone && plan.op != ResetInit,
           log := if plan.op == ResetInit then s.log + [InitReset] else s.log)
    case Finishing => s.(initDone := true, log := s.log + [Drained], worker := Waiting)
    case Exited => s
  }

  function Next(s: State, t: Step): State {
    match t
    case Post(bits) =>
      s.(mask := s.mask + (set b | b in bits && b < LONG_BITS), ui := Posting, log := s.log + [Posted(bits, s.mask)])
    case Signal => s.(event := true, ui := Idle)
    case Acquire => s.(lock := ByUi)
    case Release => s.(lock := Unlocked)
    case StopUpdate => s.(event := true, ui := Exiting)
    case StopEvent => s.(stop := true, ui := Joining)
    case Join => s.(ui := Releasing(0))
    case FreeNext =>
      var k := if s.ui.Releasing? then s.ui.k else 0;
      if k < |EXIT_ORDER|
      then s.(mem := FreeCell(s.mem, Published(EXIT_ORDER[k])), ui := Releasing(k + 1))
      else s.(ui := Gone)
    case Work(choice) => WorkStep(s, choice)
  }

  /** The state after the steps, or None if some step is not possible where it stands. */
  function Run(s: State, steps: seq<Step>): Option<State>
    decreases |steps|
  {
    if steps == [] then Some(s)
    else if Can(s, steps[0]) then Run(Next(s, steps[0]), steps[1..])
    else None
  }

  ghost predicate Reachable(s: State) {
    exists cpu, steps :: Run(Init(cpu), steps) == Some(s)
  }

  // ----- invariant -----

  /** The taken bits whose handlers the worker has yet to start. */
  predicate Pending(w: Worker, b: nat) {
    match w
    case Running(bits, i) => i <= b < TABLE && b in bits
    case Handling(bits, i, _) => i < b < TABLE && b in bits
    case _ => false
  }

  /** The worker will exchange the mask again before it waits. */
  predicate WillDrain(w: Worker) {
    w.Draining? || w.Running? || w.Handling?
  }

  /** An owed bit stands in the mask or in the worker's hands; every post has been served, merged, or stands there
      still. */
  ghost predicate BitsKept(s: State) {
    forall b :: 0 <= b < TABLE ==>
      && (Owed(s.log, b) ==> b in s.mask || Pending(s.worker, b))
      && Posts(s.log, b) == Starts(s.log, b) + Merged(s.log, b)
        + (if b in s.mask then 1 else 0) + (if Pending(s.worker, b) then 1 else 0)
  }

  /** Bits in the mask will be taken. */
  ghost predicate BitsSignalled(s: State) {
    s.mask != {} ==> s.event || s.ui == Posting || WillDrain(s.worker)
  }

  ghost predicate Stopping(s: State) {
    && (s.stop ==> s.ui.Joining? || s.ui.Releasing? || s.ui.Gone?)
    && (s.worker.Exited? ==> s.stop && s.mask == {})
    && (s.ui.Releasing? || s.ui.Gone? ==> s.worker.Exited?)
    && (s.ui.Joining? ==> s.stop)
  }

  /** The handler in hand is a resetting one and past its reset. */
  predicate PastReset(w: Worker) {
    w.Handling? && ResetsInit(w.i) && Resets(w.plan) == 0
  }

  /** Of the bits in hand, that of a resetting handler has been dealt with. */
  predicate ResetBelow(w: Worker) {
    (w.Running? || w.Handling?) && exists b :: b in w.bits && b < w.i && ResetsInit(b)
  }

  /** A handler has a reset ahead only if it is a resetting one, and at most one. */
  predicate ResetsFit(w: Worker) {
    w.Handling? ==> w.i in w.bits && (Resets(w.plan) == 0 || (ResetsInit(w.i) && Resets(w.plan) == 1))
  }

  /** Once a drain has ended, init_done is clear exactly while a resetting handler is past its reset or has finished
      with no drain ended since. */
  ghost predicate InitPlaced(s: State) {
    && ResetsFit(s.worker)
    && (ResetBelow(s.worker) ==> ResetServed(s.log))
    && (s.initDone <==> DrainedOnce(s.log) && !PastReset(s.worker) && !ResetServed(s.log))
  }

  ghost predicate InitTracked(s: State) {
    && (s.initDone <==> Ready(s.log))
    && (s.worker.Waiting? || s.worker.Exited? ==> s.initDone || s.log == [] || forall e :: e in s.log ==> e.Posted?)
  }

  ghost predicate HandlersTracked(s: State) {
    Nested(s.log) && Open(s.log) == if s.worker.Handling? then Some(s.worker.i) else None
  }

  /** The worker's part of the lock and of the memory is what the rest of its plan needs. */
  ghost predicate Owned(s: State) {
    && Sound(s.mem)
    && var n := if s.worker.Handling? then Needs(s.worker.plan) else NOTHING;
    && Meets(s.mem, n)
    && n.held != ByUi
    && (s.lock == ByUi ==> n.held == Unlocked && (s.ui == Idle || s.ui == Posting))
    && (s.lock != ByUi ==> s.lock == n.held)
    && (s.worker.Handling? ==> s.worker.i < TABLE)
    && (s.ui.Releasing? ==>
          s.ui.k <= |EXIT_ORDER| && forall j :: 0 <= j < s.ui.k ==> Published(EXIT_ORDER[j]) !in s.mem.ptr)
    && (s.ui.Gone? ==> s.mem.ptr == map[])
  }

  ghost predicate Inv(s: State) {
    BitsKept(s) && BitsSignalled(s) && Stopping(s) && InitTracked(s) && InitPlaced(s) && HandlersTracked(s) && Owned(s)
  }

  lemma InitHolds(cpu: bool)
    ensures Inv(Init(cpu))
  {
    if cpu { AllocSound(Memory(map[], {}, multiset{}, 0), Published(CpuInfo)); }
  }

  /** How one more event changes what is owed. */
  lemma OwedAppend(log: seq<Event>, e: Event)
    ensures forall b :: Owed(log + [e], b) <==> (e.Posted? && b in e.bits) || (e != Started(b) && Owed(log, b))
    ensures forall b :: Posts(log + [e], b) == Posts(log, b) + if e.Posted? && b in e.bits then 1 else 0
    ensures forall b ::
      Merged(log + [e], b) == Merged(log, b) + if e.Posted? && b in e.bits && b in e.before then 1 else 0
    ensures forall b :: Starts(log + [e], b) == Starts(log, b) + if e == Started(b) then 1 else 0
  {}

  /** How one more event changes which handler is open and whether the drain has ended. */
  lemma OpenAppend(log: seq<Event>, e: Event)
    ensures Nested(log + [e]) <==>
      Nested(log) && (e.Started? ==> Open(log) == None) && (e.Finished? ==> Open(log) == Some(e.entry))
    ensures Open(log + [e]) == if e.Started? then Some(e.entry) else if e.Finished? then None else Open(log)
    ensures Ready(log + [e]) == (e.Drained? || (!e.InitReset? && Ready(log)))
  {}

  /** The event a step adds to the history, if any. */
  function Added(s: State, t: Step): Option<Event> {
    match t
    case Post(bits) => Some(Posted(bits, s.mask))
    case Work(_) =>
      (match s.worker
       case Running(bits, i) => if i < TABLE && i in bits then Some(Started(i)) else None
       case Handling(_, i, plan) =>
         if plan.Done? then Some(Finished(i)) else if plan.op == ResetInit then Some(InitReset) else None
       case Finishing => Some(Drained)
       case _ => None)
    case _ => None
  }

  lemma StepAdds(s: State, t: Step)
    requires Can(s, t)
    ensures Next(s, t).log == match Added(s, t) case None => s.log case Some(e) => s.log + [e]
  {}

  lemma BitsKeptStep(s: State, t: Step)
    requires BitsKept(s) && Can(s, t) && (s.worker.Handling? ==> s.worker.i < TABLE)
    ensures BitsKept(Next(s, t))
  {
    hide Owed, Posts, Merged, Starts;
    StepAdds(s, t);
    if Added(s, t).Some? { OwedAppend(s.log, Added(s, t).value); }
  }

  lemma BitsSignalledStep(s: State, t: Step)
    requires BitsSignalled(s) && Stopping(s) && Can(s, t)
    ensures BitsSignalled(Next(s, t)) && Stopping(Next(s, t))
  {}

  lemma InitTrackedStep(s: State, t: Step)
    requires InitTracked(s) && Can(s, t)
    ensures InitTracked(Next(s, t))
  {
    hide Nested, Open, Ready;
    StepAdds(s, t);
    if Added(s, t).Some? { OpenAppend(s.log, Added(s, t).value); }
  }

  lemma PlacedAppend(log: seq<Event>, e: Event)
    ensures ResetServed(log + [e]) == match e
      case Finished(b) => ResetsInit(b) || ResetServed(log)
      case Drained => false
      case _ => ResetServed(log)
    ensures DrainedOnce(log + [e]) <==> e == Drained || DrainedOnce(log)
  {}

  lemma ThreeNoResets(a: Op, b: Op, c: Op, next: Plan)
    requires a != ResetInit && b != ResetInit && c != ResetInit
    ensures Resets(Do(a, Do(b, Do(c, next)))) == Resets(next)
  {
    ResetsStep(Do(c, next));
    ResetsStep(Do(b, Do(c, next)));
    ResetsStep(Do(a, Do(b, Do(c, next))));
  }

  lemma SwapNoResets(x: Slot)
    ensures Resets(BuildAndSwap(x)) == 0
  {}

  lemma HandlerResets(i: nat)
    requires i < TABLE
    ensures Resets(Handler(i)) == if ResetsInit(i) then 1 else 0
  {
    hide Resets;
    ResetsStep(Do(LockShared, Done));
    match i
    case 0 => ThreeNoResets(LockShared, UnlockShared, Branch, Done);
    case 3 =>
      var publish := Do(Build(Gpu), Do(Publish(Gpu), Do(Free(Edid), Done)));
      ThreeNoResets(Build(Gpu), Publish(Gpu), Free(Edid), Done);
      var swap := Do(Free(Gpu), Do(Swap(Edid), Do(UnlockExclusive, publish)));
      ThreeNoResets(Free(Gpu), Swap(Edid), UnlockExclusive, publish);
      var take := Do(LockExclusive, Do(Take(Gpu), swap));
      ResetsStep(Do(Take(Gpu), swap));
      ResetsStep(take);
      ResetsStep(Do(ResetInit, take));
      ResetsStep(Do(Build(Edid), Do(ResetInit, take)));
    case _ =>
      var slot := if i == 2 then Disk else if i == 5 then Smb else if i == 6 then Spd else Battery;
      SwapNoResets(slot);
      var swap := BuildAndSwap(slot);
      ResetsStep(Do(UnlockShared, swap));
      ResetsStep(Do(LockShared, Do(UnlockShared, swap)));
      ResetsStep(Do(ResetInit, Do(LockShared, Do(UnlockShared, swap))));
  }

  lemma SecondResets(sensorView: bool)
    ensures Resets(SecondPlan(sensorView)) == 0
  {
    hide Resets;
    if sensorView {
      SwapNoResets(Sensors);
      ResetsStep(Do(Ensure(Gpu), BuildAndSwap(Sensors)));
    } else {
      var free := Do(Free(Network), Do(Free(Audio), Do(Free(CpuInfo), Done)));
      ResetsStep(Do(LockShared, Done));
      ThreeNoResets(Free(Network), Free(Audio), Free(CpuInfo), Done);
      var swaps := Do(Swap(CpuInfo), Do(Swap(Audio), Do(UnlockExclusive, free)));
      ThreeNoResets(Swap(CpuInfo), Swap(Audio), UnlockExclusive, free);
      var lock := Do(Build(Audio), Do(LockExclusive, Do(Swap(Network), swaps)));
      ThreeNoResets(Build(Audio), LockExclusive, Swap(Network), swaps);
      var build := Do(UnlockShared, Do(Build(Network), Do(Build(CpuInfo), lock)));
      ThreeNoResets(UnlockShared, Build(Network), Build(CpuInfo), lock);
      ResetsStep(Do(LockShared, build));
    }
  }

  /** A resetting handler has no branch on the displayed view ahead of its reset. */
  lemma BranchEnds(p: Plan)
    requires p.Do? && p.op == Branch && Needs(p).Need?
    ensures Resets(p) == 0
  {}

  lemma InitPlacedStep(s: State, t: Step)
    requires InitPlaced(s) && Owned(s) && Can(s, t)
    ensures InitPlaced(Next(s, t))
  {
    hide ResetServed, DrainedOnce, Sound, Resets, ResetsInit;
    StepAdds(s, t);
    if Added(s, t).Some? { PlacedAppend(s.log, Added(s, t).value); }
    if t.Work? {
      match s.worker
      case Running(bits, i) => if i < TABLE { HandlerResets(i); }
      case Handling(bits, i, plan) =>
        if plan.Do? {
          ResetsStep(plan);
          if plan.op == Branch {
            BranchEnds(plan);
            SecondResets(t.choice);
          }
        } else {
          ResetsStep(Do(LockShared, plan));
        }
      case _ =>
    }
  }

  lemma ResetsStep(p: Plan)
    requires p.Do?
    ensures Resets(p) == Resets(p.next) + if p.op == ResetInit then 1 else 0
    ensures Resets(Done) == 0
  {}

  lemma HandlersTrackedStep(s: State, t: Step)
    requires HandlersTracked(s) && Can(s, t)
    ensures HandlersTracked(Next(s, t))
  {
    hide Nested, Open, Ready;
    StepAdds(s, t);
    if Added(s, t).Some? { OpenAppend(s.log, Added(s, t).value); }
  }

  lemma OwnedWork(s: State, choice: bool)
    requires Owned(s) && Stopping(s) && CanWork(s)
    ensures Owned(WorkStep(s, choice))
  {
    hide Sound, Meets;
    match s.worker
    case Running(bits, i) => if i < TABLE && i in bits { HandlersDisciplined(i); }
    case Handling(bits, i, plan) => OwnedHandler(s, choice);
    case _ =>
  }

  /** One action of a handler. */
  lemma OwnedHandler(s: State, choice: bool)
    requires Owned(s) && Stopping(s) && CanWork(s) && s.worker.Handling?
    ensures Owned(WorkStep(s, choice))
  {
    var plan := s.worker.plan;
    if plan.Do? {
      if plan.op == Branch {
        OwnedBranch(plan);
        SecondPlanNeedsNothing(choice);
      } else {
        MemStepSound(s.mem, plan, choice);
        LockFollows(s.mem, plan);
      }
      hide Sound, MemStep, Needs, Meets;
    }
  }

  lemma OwnedBranch(p: Plan)
    requires p.Do? && p.op == Branch && Needs(p).Need?
    ensures Needs(p) == NOTHING
  {}

  /** The lock a handler holds changes as its actions say. */
  lemma LockFollows(m: Memory, p: Plan)
    requires p.Do? && Meets(m, Needs(p)) && p.op != Branch
    ensures Needs(p).Need? && Needs(p.next).Need?
    ensures LockStep(Needs(p).held, p.op) == Needs(p.next).held
    ensures p.op.LockShared? || p.op.LockExclusive? ==> Needs(p).held == Unlocked
    ensures p.op.UnlockShared? ==> Needs(p).held == Shared
    ensures p.op.UnlockExclusive? ==> Needs(p).held == Exclusive
  {}

  lemma OwnedUi(s: State, t: Step)
    requires Owned(s) && Stopping(s) && Can(s, t) && !t.Work?
    ensures Owned(Next(s, t))
  {
    hide Sound;
    if t.FreeNext? {
      var k := s.ui.k;
      if k < |EXIT_ORDER| {
        FreeSound(s.mem, Published(EXIT_ORDER[k]));
      } else {
        AllReleased(s.mem);
      }
    }
  }

  lemma AllReleased(m: Memory)
    requires Meets(m, NOTHING)
    requires forall j :: 0 <= j < |EXIT_ORDER| ==> Published(EXIT_ORDER[j]) !in m.ptr
    ensures m.ptr == map[]
  {
    forall c | c in m.ptr ensures false {
      match c
      case Published(x) => assert x in EXIT_ORDER by { ExitOrderComplete(x); }
      case Built(x) =>
      case Stale(x) =>
    }
  }

  lemma ExitOrderComplete(x: Slot)
    ensures x in EXIT_ORDER
  {}

  lemma StepKeepsInv(s: State, t: Step)
    requires Inv(s) && Can(s, t)
    ensures Inv(Next(s, t))
  {
    hide BitsKept, BitsSignalled, InitTracked, InitPlaced, HandlersTracked;
    BitsKeptStep(s, t);
    InitPlacedStep(s, t);
    BitsSignalledStep(s, t);
    InitTrackedStep(s, t);
    HandlersTrackedStep(s, t);
    if t.Work? { OwnedWork(s, t.choice); } else { OwnedUi(s, t); }
  }

  lemma {:induction false} RunKeepsInv(s: State, steps: seq<Step>)
    requires Inv(s)
    ensures Run(s, steps).Some? ==> Inv(Run(s, steps).value)
    decreases |steps|
  {
    if steps != [] && Can(s, steps[0]) {
      StepKeepsInv(s, steps[0]);
      RunKeepsInv(Next(s, steps[0]), steps[1..]);
    }
  }

  lemma ReachableInv(s: State)
    requires Reachable(s)
    ensures Inv(s)
  {
    var cpu, steps :| Run(Init(cpu), steps) == Some(s);
    InitHolds(cpu);
    RunKeepsInv(Init(cpu), steps);
  }
}
