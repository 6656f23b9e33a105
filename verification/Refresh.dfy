/**
 The background refresh of gnwinfo as interleaved atomic steps of two threads:
 the UI thread posts timer bits, draws and finally joins; the worker drains the
 posted bits and publishes freshly built snapshots.
 */
module Refresh {

  // ----- handlers -----

  /** The snapshot pointers of the context. */
  datatype Slot = Network | CpuInfo | Audio | Sensors | Battery | Disk | Smb | Spd | Edid | Gpu

  /** Atomic actions of a handler. */
  datatype Op =
    | ResetInit                // InterlockedExchange(&init_done, 0)
    | LockShared | LockExclusive
    | UnlockShared | UnlockExclusive
    | Build(slot: Slot)        // built = a fresh snapshot or null
    | Swap(slot: Slot)         // stale = published; published = built
    | Take(slot: Slot)         // stale = published; published = null
    | Publish(slot: Slot)      // published = built, with no lock
    | Ensure(slot: Slot)       // if published is null: published = a fresh snapshot or null, with no lock
    | Free(slot: Slot)         // free stale
    | Branch                   // the 1 s handler goes on with the sensor view or the other views

  datatype Plan = Done | Do(op: Op, next: Plan)

  /** Build, swap under the lock, free the old one. */
  function BuildAndSwap(slot: Slot): Plan {
    Do(Build(slot), SwapBuilt(slot))
  }

  function SwapBuilt(slot: Slot): Plan {
    Do(LockExclusive, Do(Swap(slot), Do(UnlockExclusive, Do(Free(slot), Done))))
  }

  /** gnwinfo_ctx_update_1s behind its branch on the displayed view. */
  function SecondPlan(sensorView: bool): Plan {
    if sensorView then
      Do(Ensure(Gpu), BuildAndSwap(Sensors))
    else
      Do(LockShared, Do(UnlockShared,
      Do(Build(Network), Do(Build(CpuInfo), Do(Build(Audio),
      Do(LockExclusive, Do(Swap(Network), Do(Swap(CpuInfo), Do(Swap(Audio), Do(UnlockExclusive,
      Do(Free(Network), Do(Free(Audio), Do(Free(CpuInfo), Done)))))))))))))
  }

  const TABLE := 7

  /** The handler of table entry i, whose timer id is bit i. */
  function Handler(i: nat): Plan
    requires i < TABLE
  {
    match i
    case 0 => Do(LockShared, Do(UnlockShared, Do(Branch, Done)))
    case 1 => BuildAndSwap(Battery)
    case 2 => Do(ResetInit, Do(LockShared, Do(UnlockShared, BuildAndSwap(Disk))))
    case 3 => Do(Build(Edid), Do(ResetInit,
              Do(LockExclusive, Do(Take(Gpu), Do(Free(Gpu), Do(Swap(Edid), Do(UnlockExclusive,
              Do(Build(Gpu), Do(Publish(Gpu), Do(Free(Edid), Done))))))))))
    case 4 => BuildAndSwap(Battery)
    case 5 => BuildAndSwap(Smb)
    case _ => Do(ResetInit, Do(LockShared, Do(UnlockShared, BuildAndSwap(Spd))))
  }

  /** Who holds the slim reader/writer lock. */
  datatype Lock = Unlocked | ByUi | Shared | Exclusive

  /** What the rest of a handler relies on: the lock it holds, its built and stale pointers, the nulls it left
      published. */
  datatype Need = Nope | Need(held: Lock, built: set<Slot>, stale: set<Slot>, nulls: set<Slot>)

  const NOTHING := Need(Unlocked, {}, {}, {})

  /** Computed from the end of a plan; Nope when the plan leaks, frees twice or swaps without the lock. */
  function Needs(p: Plan): Need {
    if p.Done? then NOTHING
    else
      var n := Needs(p.next);
      if n.Nope? then Nope
      else match p.op
        case ResetInit => n
        case LockShared => if n.held == Shared then n.(held := Unlocked) else Nope
        case LockExclusive => if n.held == Exclusive then n.(held := Unlocked) else Nope
        case UnlockShared => if n.held == Unlocked then n.(held := Shared) else Nope
        case UnlockExclusive => if n.held == Unlocked then n.(held := Exclusive) else Nope
        case Build(s) => if s in n.built then n.(built := n.built - {s}) else Nope
        case Swap(s) =>
          if n.held == Exclusive && s in n.stale && s !in n.built && s !in n.nulls
          then n.(built := n.built + {s}, stale := n.stale - {s}) else Nope
        case Take(s) =>
          if n.held == Exclusive && s in n.stale then n.(stale := n.stale - {s}, nulls := n.nulls - {s}) else Nope
        case Publish(s) =>
          if s !in n.built && s !in n.nulls then n.(built := n.built + {s}, nulls := n.nulls + {s}) else Nope
        case Ensure(s) => if s !in n.nulls then n else Nope
        case Free(s) => if s !in n.stale then n.(stale := n.stale + {s}) else Nope
        case Branch => if p.next.Done? then n else Nope
  }

  lemma BuildAndSwapNeedsNothing(slot: Slot)
    ensures Needs(BuildAndSwap(slot)) == NOTHING
  {}

  lemma SecondPlanNeedsNothing(sensorView: bool)
    ensures Needs(SecondPlan(sensorView)) == NOTHING
  {}

  lemma DisplayNeedsNothing()
    ensures Needs(Handler(3)) == NOTHING
  {}

  /** Every handler starts from nothing and ends with nothing held, leaked or freed twice. */
  lemma HandlersDisciplined(i: nat)
    requires i < TABLE
    ensures Needs(Handler(i)) == NOTHING
  {
    match i
    case 0 =>
    case 3 => DisplayNeedsNothing();
    case _ =>
      var slot := if i == 2 then Disk else if i == 5 then Smb else if i == 6 then Spd else Battery;
      BuildAndSwapNeedsNothing(slot);
      assert Needs(Do(UnlockShared, BuildAndSwap(slot))) == Need(Shared, {}, {}, {});
  }
}
