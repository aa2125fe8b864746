/** The socket filter: building a seccomp-bpf program, and what it decides. */
module Seccomp {
  type word = x: int | 0 <= x < 0x1_0000_0000

  const BPF_LD_W_ABS: nat := 0x20
  const BPF_JEQ_K: nat := 0x15
  const BPF_JGE_K: nat := 0x35
  const BPF_RET_K: nat := 0x06

  const RET_ALLOW: word := 0x7FFF0000
  const RET_KILL_PROCESS: word := 0x80000000
  /** RET_ERRNO with EACCES in its low bits. */
  const RET_DENY: word := 0x0005000D

  const OFFSET_NR: word := 0
  const OFFSET_ARCH: word := 4
  const OFFSET_ARG0_LOW: word := 16
  const X32_SYSCALL_BIT: word := 0x40000000
  const AF_UNIX: word := 1

  datatype Architecture = Architecture(auditArch: word, socket: word, ioUringSetup: word)

  datatype Instruction = Instruction(code: nat, jumpTrue: nat, jumpFalse: nat, k: word)

  function BuildProgram(a: Architecture, denyAllSockets: bool): seq<Instruction> {
    [ Instruction(BPF_LD_W_ABS, 0, 0, OFFSET_ARCH),
      Instruction(BPF_JEQ_K, 1, 0, a.auditArch),
      Instruction(BPF_RET_K, 0, 0, RET_KILL_PROCESS),
      Instruction(BPF_LD_W_ABS, 0, 0, OFFSET_NR),
      Instruction(BPF_JGE_K, 0, 1, X32_SYSCALL_BIT),
      Instruction(BPF_RET_K, 0, 0, RET_DENY),
      Instruction(BPF_JEQ_K, 0, 1, a.ioUringSetup),
      Instruction(BPF_RET_K, 0, 0, RET_DENY),
      Instruction(BPF_JEQ_K, 1, 0, a.socket),
      Instruction(BPF_RET_K, 0, 0, RET_ALLOW) ] +
    if denyAllSockets then [Instruction(BPF_RET_K, 0, 0, RET_DENY)]
    else
      [ Instruction(BPF_LD_W_ABS, 0, 0, OFFSET_ARG0_LOW),
        Instruction(BPF_JEQ_K, 0, 1, AF_UNIX),
        Instruction(BPF_RET_K, 0, 0, RET_DENY),
        Instruction(BPF_RET_K, 0, 0, RET_ALLOW) ]
  }

  /** What the kernel shows a filter of one system call. */
  datatype Call = Call(nr: word, arch: word, pointerLow: word, pointerHigh: word, arg0Low: word, arg0High: word)

  datatype Fault = JumpOutOfRange | BadLoad | BadInstruction

  datatype Verdict = Returned(value: word) | Faulted(fault: Fault)

  function Load(c: Call, offset: word): (w: int)
    ensures -1 <= w < 0x1_0000_0000
  {
    if offset == 0 then c.nr
    else if offset == 4 then c.arch
    else if offset == 8 then c.pointerLow
    else if offset == 12 then c.pointerHigh
    else if offset == 16 then c.arg0Low
    else if offset == 20 then c.arg0High
    else -1
  }

  /** The classic BPF machine: one accumulator, forward jumps only. */
  function Execute(program: seq<Instruction>, c: Call, pc: nat, acc: word): Verdict
    decreases |program| - pc
  {
    if pc >= |program| then Faulted(JumpOutOfRange)
    else
      var i := program[pc];
      if i.code == BPF_LD_W_ABS then
        if Load(c, i.k) < 0 then Faulted(BadLoad) else Execute(program, c, pc + 1, Load(c, i.k))
      else if i.code == BPF_JEQ_K then
        Execute(program, c, pc + 1 + if acc == i.k then i.jumpTrue else i.jumpFalse, acc)
      else if i.code == BPF_JGE_K then
        Execute(program, c, pc + 1 + if acc >= i.k then i.jumpTrue else i.jumpFalse, acc)
      else if i.code == BPF_RET_K then Returned(i.k)
      else Faulted(BadInstruction)
  }

  function Run(program: seq<Instruction>, c: Call): Verdict {
    Execute(program, c, 0, 0)
  }

  /** What the filter is for, without reference to instructions. */
  function Intended(a: Architecture, denyAllSockets: bool, c: Call): word {
    if c.arch != a.auditArch then RET_KILL_PROCESS
    else if c.nr >= X32_SYSCALL_BIT || c.nr == a.ioUringSetup then RET_DENY
    else if c.nr == a.socket && (denyAllSockets || c.arg0Low == AF_UNIX) then RET_DENY
    else RET_ALLOW
  }

  /** Every jump lands inside the program, whichever way it goes. */
  lemma JumpsInRange(a: Architecture, denyAllSockets: bool, pc: nat)
    requires pc < |BuildProgram(a, denyAllSockets)|
    ensures var program := BuildProgram(a, denyAllSockets);
            && (program[pc].code != BPF_RET_K ==>
                  pc + 1 + program[pc].jumpTrue < |program| && pc + 1 + program[pc].jumpFalse < |program|)
            && program[pc].jumpTrue < 256 && program[pc].jumpFalse < 256
  {
  }

  /** Once the call is known to be a socket call of the native architecture. */
  lemma SocketPart(a: Architecture, denyAllSockets: bool, c: Call)
    ensures Execute(BuildProgram(a, denyAllSockets), c, 10, c.nr) ==
            Returned(if denyAllSockets || c.arg0Low == AF_UNIX then RET_DENY else RET_ALLOW)
  {
    var p := BuildProgram(a, denyAllSockets);
    if !denyAllSockets {
      assert Execute(p, c, 13, c.arg0Low) == Returned(RET_ALLOW);
      assert Execute(p, c, 12, c.arg0Low) == Returned(RET_DENY);
      assert Execute(p, c, 11, c.arg0Low) == Returned(if c.arg0Low == AF_UNIX then RET_DENY else RET_ALLOW);
    }
  }

  lemma NumberPart(a: Architecture, denyAllSockets: bool, c: Call)
    ensures Execute(BuildProgram(a, denyAllSockets), c, 4, c.nr) ==
            Returned(if c.nr >= X32_SYSCALL_BIT || c.nr == a.ioUringSetup then RET_DENY
                     else if c.nr == a.socket && (denyAllSockets || c.arg0Low == AF_UNIX) then RET_DENY
                     else RET_ALLOW)
  {
    var p := BuildProgram(a, denyAllSockets);
    SocketPart(a, denyAllSockets, c);
    assert Execute(p, c, 9, c.nr) == Returned(RET_ALLOW);
    assert Execute(p, c, 8, c.nr) ==
           Returned(if c.nr == a.socket && (denyAllSockets || c.arg0Low == AF_UNIX) then RET_DENY else RET_ALLOW);
    assert Execute(p, c, 7, c.nr) == Returned(RET_DENY);
    assert Execute(p, c, 5, c.nr) == Returned(RET_DENY);
  }

  /** For every system call on every architecture the program halts without a fault and
      returns the intended verdict. */
  lemma FilterDecides(a: Architecture, denyAllSockets: bool, c: Call)
    ensures Run(BuildProgram(a, denyAllSockets), c) == Returned(Intended(a, denyAllSockets, c))
  {
    var p := BuildProgram(a, denyAllSockets);
    NumberPart(a, denyAllSockets, c);
    assert Execute(p, c, 3, c.arch) == Execute(p, c, 4, c.nr);
    assert Execute(p, c, 2, c.arch) == Returned(RET_KILL_PROCESS);
    assert Execute(p, c, 1, c.arch) ==
           if c.arch == a.auditArch then Execute(p, c, 3, c.arch) else Returned(RET_KILL_PROCESS);
  }

  /** Denying all sockets only ever denies more. */
  lemma DenyAllIsStricter(a: Architecture, c: Call)
    ensures Run(BuildProgram(a, true), c) == Returned(RET_ALLOW) ==> Run(BuildProgram(a, false), c) == Returned(RET_ALLOW)
    ensures Run(BuildProgram(a, true), c) != Run(BuildProgram(a, false), c) <==>
              && c.arch == a.auditArch && c.nr == a.socket && c.arg0Low != AF_UNIX
              && c.nr < X32_SYSCALL_BIT && c.nr != a.ioUringSetup
  {
    FilterDecides(a, true, c);
    FilterDecides(a, false, c);
  }
}
