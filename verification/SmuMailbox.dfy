/**
 The SMU mailbox: the host's bounded-polling command handshake over an index/data
 window, interleaved with firmware that may act before every register access.
 */
module SmuMailbox {
  import opened Numbers

  const SMU_MAX_ARGS := 6
  const SMU_COMMAND_MAX_RETRIES := 8096
  const SMU_PCI_ADDR_REG: Word := 0xC4
  const SMU_PCI_DATA_REG: Word := 0xC8
  const ALL_ONES: Word := 0xFFFFFFFF

  /** The six argument words of a command or a reply. */
  type Args = s: seq<Word> | |s| == SMU_MAX_ARGS witness [0, 0, 0, 0, 0, 0]

  /** What passes through the mailbox: a command with the arguments standing in ARG, and its answer. */
  datatype Event =
    | Command(fn: Word, args: Args)
    | Reply(fn: Word, args: Args, status: Word, results: Args)

  /** A command has been sent and not answered. */
  predicate Outstanding(log: seq<Event>) {
    log != [] && log[|log| - 1].Command?
  }

  /** Entry i fits what came before it: a command meets an idle mailbox, a reply answers the command just before it. */
  predicate Fits(log: seq<Event>, i: nat)
    requires i < |log|
  {
    match log[i]
    case Command(_, _) => i > 0 ==> log[i - 1].Reply?
    case Reply(fn, args, status, results) =>
      i > 0 && log[i - 1] == Command(fn, args) && status != 0
  }

  ghost predicate Paired(log: seq<Event>) {
    forall i :: 0 <= i < |log| ==> Fits(log, i)
  }

  /** Over any run the mailbox alternates, so the k-th reply answers the k-th command and no other. */
  lemma {:induction false} PairedAlternates(log: seq<Event>)
    requires Paired(log)
    ensures forall i :: 0 <= i < |log| ==> (log[i].Command? <==> i % 2 == 0)
    ensures forall i :: 0 <= i < |log| && i % 2 == 1 ==>
      log[i].Reply? && log[i - 1] == Command(log[i].fn, log[i].args)
    ensures Outstanding(log) <==> |log| % 2 == 1
  {
    if log != [] {
      var init := log[..|log| - 1];
      assert forall i :: 0 <= i < |init| ==> Fits(log, i) ==> Fits(init, i);
      PairedAlternates(init);
      assert Fits(log, |log| - 1);
    }
  }

  lemma PairedAppend(log: seq<Event>, e: Event)
    requires Paired(log) && Fits(log + [e], |log|)
    ensures Paired(log + [e])
  {
    forall i | 0 <= i < |log| ensures Fits(log + [e], i) { assert Fits(log, i); }
  }

  /** Firmware: idle, holding a command number, or storing the reply word by word. */
  datatype Firmware =
    | Idle
    | Received(fn: Word)
    | Replying(fn: Word, args: Args, stored: nat, status: Word, results: Args)

  function ArgAddress(arg: Word, i: nat): Word {
    (arg + 4 * i) % 0x1_0000_0000
  }

  /** The eight mailbox registers have different addresses. */
  ghost predicate Layout(cmd: Word, rsp: Word, arg: Word) {
    && cmd != rsp
    && (forall i :: 0 <= i < SMU_MAX_ARGS ==> ArgAddress(arg, i) != cmd && ArgAddress(arg, i) != rsp)
  }

  lemma ArgAddressesDiffer(arg: Word, i: nat, j: nat)
    requires i < j < SMU_MAX_ARGS
    ensures ArgAddress(arg, i) != ArgAddress(arg, j)
  {}

  /** Position in the new log where a call's own events begin, behind a late reply to an earlier command. */
  function OwnEvents(before: seq<Event>, after: seq<Event>): nat {
    |before| + if Outstanding(before) && |after| > |before| then 1 else 0
  }

  /** How many words come before the first that reads as a failure. */
  function Readable(words: seq<Word>): (n: nat)
    ensures n <= |words| && forall i :: 0 <= i < n ==> words[i] != ALL_ONES
    ensures n < |words| ==> words[n] == ALL_ONES
  {
    if words == [] || words[0] == ALL_ONES then 0 else 1 + Readable(words[1..])
  }

  lemma ReadableAt(words: seq<Word>, n: nat)
    requires n <= |words| && forall i :: 0 <= i < n ==> words[i] != ALL_ONES
    requires n < |words| ==> words[n] == ALL_ONES
    ensures Readable(words) == n
  {}

  lemma ReadableFrom(words: seq<Word>, n: nat)
    requires n <= |words| && forall i :: 0 <= i < n ==> words[i] != ALL_ONES
    ensures Readable(words) >= n
  {}

  lemma AllOnesStops(words: seq<Word>)
    ensures Readable(words) < |words| <==> ALL_ONES in words
  {}

  /** The first `got` words of the reply, then the rest of the old arguments. */
  function Mixed(results: Args, args: Args, got: nat): Args
    requires got <= SMU_MAX_ARGS
  {
    results[..got] + args[got..]
  }

  lemma MixedNothing(results: Args, args: Args)
    ensures Mixed(results, args, 0) == args
  {}

  lemma MixedStep(results: Args, args: Args, i: nat)
    requires i < SMU_MAX_ARGS
    ensures Mixed(results, args, i)[i := results[i]] == Mixed(results, args, i + 1)
  {}

  class Mailbox {
    const cmd: Word
    const rsp: Word
    const arg: Word
    var index: Word
    var smn: map<Word, Word>
    var fw: Firmware
    ghost var log: seq<Event>
    ghost var accesses: nat

    function Reg(a: Word): Word
      reads this
    {
      if a in smn then smn[a] else 0
    }

    function ArgRegs(): (r: Args)
      reads this
      ensures forall i :: 0 <= i < SMU_MAX_ARGS ==> r[i] == Reg(ArgAddress(arg, i))
    {
      [Reg(ArgAddress(arg, 0)), Reg(ArgAddress(arg, 1)), Reg(ArgAddress(arg, 2)),
       Reg(ArgAddress(arg, 3)), Reg(ArgAddress(arg, 4)), Reg(ArgAddress(arg, 5))]
    }

    /** The six argument registers stand four bytes apart. */
    lemma ArgRegsApart()
      requires arg < 0xFFFF_FFEC
      ensures ArgRegs() == [Reg(arg), Reg(arg + 4), Reg(arg + 8), Reg(arg + 12), Reg(arg + 16), Reg(arg + 20)]
    {
      assert ArgAddress(arg, 0) == arg && ArgAddress(arg, 5) == arg + 20;
    }

    /** What holds between any two register accesses. */
    ghost predicate Valid()
      reads this
    {
      && Layout(cmd, rsp, arg)
      && Paired(log)
      && (fw.Idle? <==> !Outstanding(log))
      && (!fw.Idle? ==> Reg(rsp) == 0 && log[|log| - 1].fn == fw.fn)
      && (fw.Received? ==> log[|log| - 1].args == ArgRegs())
      && (fw.Replying? ==>
            && log[|log| - 1].args == fw.args
            && fw.stored <= SMU_MAX_ARGS
            && fw.status != 0
            && forall i :: 0 <= i < fw.stored ==> Reg(ArgAddress(arg, i)) == fw.results[i])
    }

    /** What holds between two calls: RSP is 0 exactly when a command is outstanding, and the last status otherwise. */
    ghost predicate Settled()
      reads this
    {
      && Valid()
      && (Reg(rsp) == 0 <==> Outstanding(log))
      && (log != [] && !Outstanding(log) ==> Reg(rsp) == log[|log| - 1].status)
    }

    /** What any amount of firmware activity can do: nothing when idle, else at most one reply. */
    twostate predicate FirmwareOnly()
      reads this
    {
      && (old(fw.Idle?) ==> smn == old(smn) && fw == old(fw) && log == old(log))
      && (!old(fw.Idle?) && !fw.Idle? ==> log == old(log))
      && (!old(fw.Idle?) && fw.Idle? ==>
            && Reg(rsp) != 0
            && |log| == |old(log)| + 1 && log[..|old(log)|] == old(log)
            && log[|old(log)|].Reply? && log[|old(log)|].results == ArgRegs() && log[|old(log)|].status == Reg(rsp))
    }

    constructor (cmd: Word, rsp: Word, arg: Word, smn: map<Word, Word>)
      requires Layout(cmd, rsp, arg) && rsp in smn && smn[rsp] != 0
      ensures Settled() && log == [] && this.cmd == cmd && this.rsp == rsp && this.arg == arg
    {
      this.cmd, this.rsp, this.arg := cmd, rsp, arg;
      this.index, this.smn, this.fw := 0, smn, Idle;
      this.log, this.accesses := [], 0;
    }

    /** One firmware action: taking up a command with a reply of its choosing, storing a reply word, or setting RSP. */
    method FirmwareStep(status: Word, results: Args)
      requires Valid()
      modifies this
      ensures Valid() && FirmwareOnly() && index == old(index) && accesses == old(accesses)
      ensures old(fw.Received?) && status != 0 ==>
        fw == Replying(old(fw.fn), old(log[|log| - 1].args), 0, status, results) && log == old(log)
      ensures old(fw.Replying?) && old(fw.stored) < SMU_MAX_ARGS ==>
        fw == old(fw).(stored := old(fw.stored) + 1) && log == old(log)
      ensures old(fw.Replying?) && old(fw.stored) == SMU_MAX_ARGS ==>
        fw.Idle? && log == old(log) + [Reply(old(fw.fn), old(fw.args), old(fw.status), old(fw.results))]
    {
      hide Paired;
      match fw
      case Idle =>
      case Received(fn) =>
        if status != 0 {
          fw := Replying(fn, ArgRegs(), 0, status, results);
        }
      case Replying(fn, args, stored, status, results) =>
        if stored < SMU_MAX_ARGS {
          StoreWord();
        } else {
          SetStatus();
        }
    }

    /** The firmware stores the next word of its reply. */
    method StoreWord()
      requires Valid() && fw.Replying? && fw.stored < SMU_MAX_ARGS
      modifies this
      ensures Valid() && index == old(index) && accesses == old(accesses) && log == old(log)
      ensures fw == old(fw).(stored := old(fw.stored) + 1)
    {
      hide Paired;
      var Replying(fn, args, stored, status, results) := fw;
      forall i | 0 <= i < stored ensures ArgAddress(arg, i) != ArgAddress(arg, stored) {
        ArgAddressesDiffer(arg, i, stored);
      }
      smn := smn[ArgAddress(arg, stored) := results[stored]];
      fw := Replying(fn, args, stored + 1, status, results);
    }

    /** The firmware sets RSP, which completes the reply. */
    method SetStatus()
      requires Valid() && fw.Replying? && fw.stored == SMU_MAX_ARGS
      modifies this
      ensures Valid() && index == old(index) && accesses == old(accesses) && fw.Idle?
      ensures log == old(log) + [Reply(old(fw.fn), old(fw.args), old(fw.status), old(fw.results))]
      ensures Reg(rsp) == old(fw.status) && ArgRegs() == old(fw.results)
    {
      hide Paired;
      var Replying(fn, args, stored, status, results) := fw;
      PairedAppend(log, Reply(fn, args, status, results));
      smn := smn[rsp := status];
      log := log + [Reply(fn, args, status, results)];
      fw := Idle;
      assert ArgRegs() == results;
    }

    /** Any number of firmware steps. */
    method Interfere()
      requires Valid()
      modifies this
      ensures Valid() && FirmwareOnly() && index == old(index) && accesses == old(accesses)
    {
      var steps: nat := *;
      while steps > 0
        invariant Valid() && FirmwareOnly() && index == old(index) && accesses == old(accesses)
      {
        var status: Word := *;
        var results: Args := *;
        FirmwareStep(status, results);
        steps := steps - 1;
      }
    }

    /** The effect of storing a word through the window: a store to CMD sends a command. */
    twostate predicate Stored(value: Word)
      reads this
    {
      && smn == old(smn)[index := value]
      && (index == cmd ==> fw == Received(value) && log == old(log) + [Command(value, ArgRegs())])
      && (index != cmd ==> fw == old(fw) && log == old(log))
    }

    /** A store to the register the window points at. */
    method Store(value: Word)
      requires Valid() && fw.Idle? && (index == cmd ==> Reg(rsp) == 0)
      modifies this
      ensures Valid() && index == old(index) && accesses == old(accesses) && Stored(value)
    {
      hide Paired;
      ghost var before := ArgRegs();
      smn := smn[index := value];
      if index == cmd {
        assert ArgRegs() == before;
        PairedAppend(log, Command(value, ArgRegs()));
        fw := Received(value);
        log := log + [Command(value, ArgRegs())];
      }
    }

    /** WR0_WrPciConf32 on the root complex. Data is written through the window only while the
        firmware is idle, and CMD only after RSP has been cleared. */
    method WrPciConf32(reg: Word, value: Word)
      requires Valid()
      requires reg == 0xC8 ==> fw.Idle? && (index == cmd ==> Reg(rsp) == 0)
      modifies this
      ensures Valid() && accesses == old(accesses) + 1
      ensures reg == 0xC4 ==> index == value && FirmwareOnly()
      ensures reg == 0xC8 ==> index == old(index) && Stored(value)
    {
      hide Paired, ArgRegs;
      Interfere();
      accesses := accesses + 1;
      if reg == SMU_PCI_ADDR_REG {
        index := value;
      } else if reg == SMU_PCI_DATA_REG {
        Store(value);
      }
    }

    /** WR0_RdPciConf32 on the root complex: when the driver fails the read the value is all ones. */
    method RdPciConf32(reg: Word) returns (value: Word, ghost failed: bool)
      requires Valid()
      modifies this
      ensures Valid() && FirmwareOnly() && index == old(index) && accesses == old(accesses) + 1
      ensures if failed then value == 0xFFFF_FFFF else reg == 0xC8 ==> value == Reg(index)
    {
      Interfere();
      accesses := accesses + 1;
      failed := false;
      if * {
        value, failed := ALL_ONES, true;
      } else if reg == SMU_PCI_ADDR_REG {
        value := index;
      } else if reg == SMU_PCI_DATA_REG {
        value := Reg(index);
      } else {
        value := *;
      }
    }

    /** read_smn: succeeds exactly when the driver reads the register and it does not hold all ones. */
    method ReadSmn(address: Word) returns (ok: bool, value: Word, ghost failed: bool)
      requires Valid()
      modifies this
      ensures Valid() && FirmwareOnly() && accesses == old(accesses) + 2
      ensures ok <==> !failed && Reg(address) != 0xFFFF_FFFF
      ensures ok ==> value == Reg(address)
    {
      WrPciConf32(SMU_PCI_ADDR_REG, address);
      value, failed := RdPciConf32(SMU_PCI_DATA_REG);
      ok := value != ALL_ONES;
    }

    /** write_smn */
    method WriteSmn(address: Word, value: Word)
      requires Valid() && fw.Idle? && (address == cmd ==> Reg(rsp) == 0)
      modifies this
      ensures Valid() && accesses == old(accesses) + 2
      ensures index == address && Stored(value)
    {
      WrPciConf32(SMU_PCI_ADDR_REG, address);
      WrPciConf32(SMU_PCI_DATA_REG, value);
    }

    /** What a call without a driver failure did, from the log before and after it: r == 0 exactly when its reply
        came within the polls, with a status and six words that do not read as failures. */
    ghost predicate Explained(own: nat, r: int, got: nat)
      reads this
    {
      && (r == -3 <==> Outstanding(log))
      && (|log| <= own && r != -3 ==> r == -2 && Reg(rsp) == ALL_ONES)
      && (|log| == own + 2 && log[own + 1].Reply? ==>
            && got == (if log[own + 1].status == ALL_ONES then 0 else Readable(log[own + 1].results))
            && r == if got == SMU_MAX_ARGS then 0 else -2)
    }

    /** Reads RSP until it is nonzero, at most 8096 times, two accesses each: after a timeout the register is still 0
        behind the last of the 8096 reads, so a reply that is there by then is taken. */
    method PollRsp() returns (r: int, ghost failed: bool)
      requires Valid()
      modifies this
      ensures Valid() && FirmwareOnly() && old(accesses) <= accesses <= old(accesses) + 2 * 8096
      ensures r in {0, -2, -3} && (r == 0 ==> fw.Idle?)
      ensures r == 0 ==> Reg(rsp) != 0 && Reg(rsp) != ALL_ONES
      ensures r == -2 && !failed ==> fw.Idle? && Reg(rsp) == ALL_ONES
      ensures failed ==> r == -2
      ensures r == -3 ==> Reg(rsp) == 0 && accesses == old(accesses) + 2 * 8096
    {
      hide Paired, ArgRegs;
      var i, response := 0, 0;
      var ok: bool;
      while i < SMU_COMMAND_MAX_RETRIES
        invariant i <= SMU_COMMAND_MAX_RETRIES && response == 0
        invariant Valid() && FirmwareOnly() && accesses == old(accesses) + 2 * i
        invariant i > 0 ==> Reg(rsp) == 0
      {
        ok, response, failed := ReadSmn(rsp);
        if !ok {
          return -2, failed;
        }
        if response != 0 {
          break;
        }
        i := i + 1;
      }
      r, failed := if response == 0 then -3 else 0, false;
    }

    /** Clears RSP and writes the arguments and the command number. */
    method PutCommand(fn: Word, args: array<Word>)
      requires Valid() && fw.Idle? && args.Length == SMU_MAX_ARGS
      modifies this
      ensures Valid() && fw == Received(fn) && accesses == old(accesses) + 16
      ensures log == old(log) + [Command(fn, args[..])]
    {
      hide Paired;
      ghost var was: Args := args[..];
      WriteSmn(rsp, 0);
      var i := 0;
      while i < SMU_MAX_ARGS
        invariant i <= SMU_MAX_ARGS
        invariant Valid() && fw.Idle? && Reg(rsp) == 0 && log == old(log)
        invariant forall j :: 0 <= j < i ==> Reg(ArgAddress(arg, j)) == was[j]
        invariant accesses == old(accesses) + 2 + 2 * i
      {
        forall j | 0 <= j < i ensures ArgAddress(arg, j) != ArgAddress(arg, i) { ArgAddressesDiffer(arg, j, i); }
        WriteSmn(ArgAddress(arg, i), args[i]);
        i := i + 1;
      }
      WriteSmn(cmd, fn);
      assert ArgRegs() == was;
    }

    /** Reads the reply words, stopping at the first failed read. */
    method TakeReply(args: array<Word>) returns (r: int, ghost got: nat, ghost failed: bool)
      requires Valid() && fw.Idle? && args.Length == SMU_MAX_ARGS
      modifies this, args
      ensures Valid() && FirmwareOnly() && accesses <= old(accesses) + 12
      ensures got <= SMU_MAX_ARGS && args[..] == Mixed(ArgRegs(), old(args[..]), got)
      ensures r == if got == SMU_MAX_ARGS then 0 else -2
      ensures failed ==> got < SMU_MAX_ARGS
      ensures if failed then got <= Readable(ArgRegs()) else got == Readable(ArgRegs())
    {
      hide Paired, ArgRegs, Mixed, Readable;
      ghost var was: Args := args[..];
      ghost var regs := ArgRegs();
      MixedNothing(regs, was);
      got, failed := 0, false;
      var i := 0;
      while i < SMU_MAX_ARGS
        invariant i == got <= SMU_MAX_ARGS && !failed
        invariant Valid() && FirmwareOnly() && accesses == old(accesses) + 2 * i
        invariant ArgRegs() == regs && args[..] == Mixed(regs, was, i)
        invariant forall j :: 0 <= j < i ==> regs[j] != ALL_ONES
      {
        var ok, value;
        ok, value, failed := ReadSmn(ArgAddress(arg, i));
        assert ArgRegs() == regs;
        if !ok {
          if failed { ReadableFrom(regs, i); } else { ReadableAt(regs, i); }
          return -2, got, failed;
        }
        MixedStep(regs, was, i);
        args[i] := value;
        i, got := i + 1, got + 1;
      }
      ReadableAt(regs, SMU_MAX_ARGS);
      return 0, got, false;
    }

    /** Waits for the reply to the command just sent and takes it. */
    method AwaitReply(args: array<Word>) returns (r: int, ghost got: nat, ghost failed: bool)
      requires Valid() && !fw.Idle? && args.Length == SMU_MAX_ARGS
      modifies this, args
      ensures Settled() && r in {0, -2, -3} && (failed ==> r == -2)
      ensures |old(log)| <= |log| <= |old(log)| + 1 && log[..|old(log)|] == old(log)
      ensures got <= SMU_MAX_ARGS && (r == 0 <==> got == SMU_MAX_ARGS)
      ensures r == -3 ==> accesses == old(accesses) + 16192
      ensures accesses <= old(accesses) + 16192 + 12
      ensures |log| == |old(log)| ==> got == 0 && args[..] == old(args[..]) && (if failed then r == -2 else r == -3)
      ensures |log| > |old(log)| ==>
        && log[|old(log)|].Reply? && args[..] == Mixed(log[|old(log)|].results, old(args[..]), got) && r != -3
        && (!failed ==> got == if log[|old(log)|].status == ALL_ONES then 0 else Readable(log[|old(log)|].results))
    {
      hide Paired, ArgRegs, Readable;
      got := 0;
      r, failed := PollRsp();
      if r == 0 {
        r, got, failed := TakeReply(args);
      }
    }

    /** The rest of the call, from a nonzero RSP on. */
    method SendIdle(fn: Word, args: array<Word>) returns (r: int, ghost got: nat, ghost failed: bool)
      requires Settled() && fw.Idle? && args.Length == SMU_MAX_ARGS
      modifies this, args
      ensures Settled() && r in {0, -2, -3}
      ensures |old(log)| < |log| <= |old(log)| + 2 && log[..|old(log)|] == old(log)
      ensures log[|old(log)|] == Command(fn, old(args[..]))
      ensures |log| == |old(log)| + 2 ==> log[|old(log)| + 1].Reply?
      ensures got <= SMU_MAX_ARGS && (got > 0 ==> |log| == |old(log)| + 2)
      ensures args[..] == if got > 0 then Mixed(log[|old(log)| + 1].results, old(args[..]), got) else old(args[..])
      ensures r == 0 <==> got == SMU_MAX_ARGS
      ensures r == -3 ==> Outstanding(log) && accesses == old(accesses) + 16 + 16192
      ensures accesses <= old(accesses) + 16192 + 28
      ensures !failed ==> Explained(|old(log)|, r, got)
      ensures failed ==> r == -2
    {
      hide Paired, ArgRegs, Readable, Mixed;
      PutCommand(fn, args);
      r, got, failed := AwaitReply(args);
      if |log| == |old(log)| + 2 { MixedNothing(log[|old(log)| + 1].results, old(args[..])); }
    }

    /** WR0_SendSmuCmd on a driver with port access; `usable` is the check of the driver handle and type. */
    method SendSmuCmd(usable: bool, fn: Word, args: array<Word>) returns (r: int, ghost got: nat, ghost failed: bool)
      requires Settled() && args.Length == SMU_MAX_ARGS
      modifies this, args
      ensures Settled() && r in {0, -1, -2, -3}
      ensures |log| >= |old(log)| && log[..|old(log)|] == old(log)
      ensures var own := OwnEvents(old(log), log);
        && |log| <= own + 2
        && (|log| > own ==> log[own] == Command(fn, old(args[..])))
        && (|log| == own + 2 ==> log[own + 1].Reply?)
        && got <= SMU_MAX_ARGS
        && (got > 0 ==> |log| == own + 2)
        && args[..] == (if got > 0 then Mixed(log[own + 1].results, old(args[..]), got) else old(args[..]))
        && (r == 0 <==> got == SMU_MAX_ARGS)
        && (r == -1 <==> !usable)
      ensures r == -1 ==> unchanged(this)
      ensures usable && !failed ==> Explained(OwnEvents(old(log), log), r, got)
      ensures var own := OwnEvents(old(log), log);
        usable && !failed ==>
          (r == 0 <==> |log| == own + 2 && log[own + 1].status != ALL_ONES && ALL_ONES !in log[own + 1].results)
      ensures failed ==> r == -2
      ensures r == 0 ==> ALL_ONES !in args[..]
      ensures usable && old(Reg(rsp)) == ALL_ONES ==> r == -2 && log == old(log) && Reg(rsp) == ALL_ONES
      ensures r == -3 ==> Outstanding(log) && accesses >= old(accesses) + 16192
      ensures accesses <= old(accesses) + 2 * 16192 + 28
    {
      hide Paired, ArgRegs;
      got, failed := 0, false;
      if !usable {
        return -1, 0, false;
      }
      r, failed := PollRsp();
      if r == 0 {
        r, got, failed := SendIdle(fn, args);
      }
    }

    /** The firmware answers the command in hand with any reply it likes. */
    method Answer(status: Word, results: Args)
      requires Valid() && fw.Received? && status != 0
      modifies this
      ensures Valid() && fw.Idle? && Reg(rsp) == status && ArgRegs() == results && accesses == old(accesses)
      ensures log == old(log) + [Reply(old(fw.fn), old(log[|log| - 1].args), status, results)]
    {
      hide Paired, ArgRegs;
      FirmwareStep(status, results);
      var i := 0;
      while i < SMU_MAX_ARGS
        invariant i <= SMU_MAX_ARGS && Valid() && accesses == old(accesses) && log == old(log)
        invariant fw == Replying(old(fw.fn), old(log[|log| - 1].args), i, status, results)
      {
        FirmwareStep(status, results);
        i := i + 1;
      }
      FirmwareStep(status, results);
    }

    /** A run of a call to the end in which the firmware answers as soon as the command is there: with a status or a
        word of all ones the call fails, although nothing else does. */
    method AllOnesReply(fn: Word, args: array<Word>, status: Word, results: Args)
      returns (r: int, ghost got: nat, ghost failed: bool)
      requires Valid() && fw.Idle? && args.Length == SMU_MAX_ARGS
      requires status != 0 && (status == ALL_ONES || ALL_ONES in results)
      modifies this, args
      ensures Valid() && r == -2
      ensures log == old(log) + [Command(fn, old(args[..])), Reply(fn, old(args[..]), status, results)]
      ensures !failed ==> got == (if status == ALL_ONES then 0 else Readable(results))
      ensures !failed ==> args[..] == Mixed(results, old(args[..]), got)
    {
      hide Paired, Mixed, Readable;
      ghost var was: Args := args[..];
      got := 0;
      PutCommand(fn, args);
      Answer(status, results);
      MixedNothing(results, was);
      r, failed := PollRsp();
      if r == 0 {
        AllOnesStops(results);
        r, got, failed := TakeReply(args);
      }
    }

    /** A call after any amount of firmware activity. */
    method NextCall(call: (Word, Args)) returns (r: int, out: Args, ghost own: nat)
      requires Settled()
      modifies this
      ensures Settled() && |old(log)| <= |log| && log[..|old(log)|] == old(log)
      ensures own >= |old(log)| && (r == 0 ==> Answered(log, own, call, out))
    {
      hide Paired, ArgRegs, Mixed;
      Interfere();
      ghost var before := log;
      var args := new Word[SMU_MAX_ARGS](j requires 0 <= j < SMU_MAX_ARGS => call.1[j]);
      assert args[..] == call.1;
      ghost var got, failed;
      r, got, failed := SendSmuCmd(true, call.0, args);
      own, out := OwnEvents(before, log), args[..];
      assert r == 0 ==> Answered(log, own, call, out) by { MixedAll(); }
    }

    /** A run: any calls in order, with firmware activity between them. Calls that succeed are answered
        by replies to their own commands, in the order of the calls. */
    method RunCalls(calls: seq<(Word, Args)>) returns (codes: seq<int>, outs: seq<Args>, ghost at: seq<nat>)
      requires Settled()
      modifies this
      ensures Settled()
      ensures |codes| == |outs| == |at| == |calls|
      ensures |old(log)| <= |log| && log[..|old(log)|] == old(log)
      ensures forall k :: 0 <= k < |calls| && codes[k] == 0 ==> Answered(log, at[k], calls[k], outs[k])
      ensures forall j, k :: 0 <= j < k < |calls| && codes[j] == 0 && codes[k] == 0 ==> at[j] + 1 < at[k]
    {
      hide Paired, ArgRegs, Mixed;
      codes, outs, at := [], [], [];
      var i := 0;
      while i < |calls|
        invariant i == |codes| == |outs| == |at| <= |calls|
        invariant Settled() && |old(log)| <= |log| && log[..|old(log)|] == old(log)
        invariant forall k :: 0 <= k < i && codes[k] == 0 ==> Answered(log, at[k], calls[k], outs[k])
        invariant forall j, k :: 0 <= j < k < i && codes[j] == 0 && codes[k] == 0 ==> at[j] + 1 < at[k]
      {
        ghost var first := log;
        var r, out, own := NextCall(calls[i]);
        forall k | 0 <= k < i && codes[k] == 0
          ensures Answered(log, at[k], calls[k], outs[k]) && at[k] + 1 < own
        {
          AnsweredKept(first, log, at[k], calls[k], outs[k]);
        }
        hide Answered;
        codes, outs, at := codes + [r], outs + [out], at + [own];
        i := i + 1;
      }
    }
  }

  lemma MixedAll()
    ensures forall results: Args, args: Args :: Mixed(results, args, SMU_MAX_ARGS) == results
  {}

  lemma AnsweredKept(before: seq<Event>, after: seq<Event>, n: nat, call: (Word, Args), out: Args)
    requires Answered(before, n, call, out) && |before| <= |after| && after[..|before|] == before
    ensures Answered(after, n, call, out) && n + 1 < |before|
  {}

  /** The log holds, at n, the command of this call and behind it the reply with these results. */
  predicate Answered(log: seq<Event>, n: nat, call: (Word, Args), out: Args) {
    && n + 1 < |log|
    && log[n] == Command(call.0, call.1)
    && log[n + 1].Reply? && log[n + 1].results == out
  }
}
