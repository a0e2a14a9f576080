/** The cycle-stepped processor: registers, the opcode dispatch table and
    a pure `Step` that advances the instruction stream by one clock cycle.

    The instruction stream is a resumable computation: it stops at every
    cycle boundary. Here the point where it stopped is the `Phase`, and the
    values it had already read from memory travel inside the phase. */
module Processor {
  import opened Memory
  import opened Flags

  /** What the dispatch table can hold for an opcode. */
  datatype Instr = LdaImm | StaAbs | Sei | Cld | Unknown

  /** The dispatch table, built once: 256 entries, all `Unknown` except four. */
  function Handlers(): (t: seq<Instr>)
    ensures |t| == 256
  {
    seq(256, op => Unknown)[0xA9 := LdaImm][0x8D := StaAbs][0x78 := Sei][0xD8 := Cld]
  }

  /** The handler the table holds for `op`. */
  function Dispatch(op: Byte): (i: Instr)
  {
    Handlers()[op]
  }

  /** The four opcodes this processor implements. */
  predicate Implemented(op: Byte)
  {
    op == 0xA9 || op == 0x8D || op == 0x78 || op == 0xD8
  }

  /** Where the instruction stream is suspended between two cycles. */
  datatype Phase =
    | Ready                         // the next cycle fetches an opcode
    | Decoded(op: Byte)             // opcode fetched and PC advanced; next cycle dispatches
    | LdaOperand(v: Byte)           // LDA #imm: operand read, PC not yet past it
    | StaLow(lo: Byte)              // STA abs: low address byte read, PC not yet past it
    | StaHigh(lo: Byte, hi: Byte)   // STA abs: high address byte read, PC not yet past it
    | Failed(op: Byte)              // the unknown-opcode handler raised; the stream is finished

  /** Registers, status and the point of suspension. A, X, Y and S are
      bytes; PC is incremented without masking, so it is an unbounded
      natural number and only the addresses it is read through are masked. */
  datatype Cpu = Cpu(flags: Status, a: Byte, x: Byte, y: Byte, s: Byte, pc: nat, phase: Phase)

  /** A processor together with the memory on its bus. */
  datatype Machine = Machine(cpu: Cpu, mem: Ram)

  /** X, Y and S agree: no implemented instruction writes them. */
  predicate SameIndexRegs(c: Cpu, d: Cpu)
  {
    d.x == c.x && d.y == c.y && d.s == c.s
  }

  /** Builds the processor: PC from the reset vector at 0xFFFC/0xFFFD, every
      other register zero, every flag clear, about to fetch. */
  function New(m: Ram): (c: Cpu)
    ensures c.pc == m[0xFFFC] as int + 256 * (m[0xFFFD] as int)
    ensures c.pc < 0x10000
    ensures c.a == 0 && c.x == 0 && c.y == 0 && c.s == 0
    ensures !c.flags.zero && !c.flags.negative && !c.flags.irqDisable && !c.flags.decimal
    ensures c.phase == Ready
  {
    Cpu(Cleared, 0, 0, 0, 0, ReadWord(m, 0xFFFC), Ready)
  }

  /** Updates zero and negative from `value` and hands back the value
      reduced to a byte, ready to be stored in a register. */
  function SetZNPass(f: Status, value: Byte): (r: (Status, Byte))
    ensures r.1 == value
    ensures r.0.zero <==> r.1 == 0
    ensures r.0.negative <==> r.1 >= 0x80
    ensures r.0.irqDisable == f.irqDisable && r.0.decimal == f.decimal
  {
    // masking with 0xff is the remainder modulo 0x100 for a non-negative value
    (SetZN(f, value), value % 0x100)
  }

  /** One clock cycle of the instruction stream. */
  function Step(s: Machine): (r: Machine)
    ensures SameIndexRegs(s.cpu, r.cpu)
    ensures forall a :: ProtectedBase <= a < 0x10000 ==> r.mem[a] == s.mem[a]
    ensures r.cpu.pc == s.cpu.pc || r.cpu.pc == s.cpu.pc + 1
    ensures r.cpu.phase.Failed? <==>
      (s.cpu.phase.Failed? || (s.cpu.phase.Decoded? && !Implemented(s.cpu.phase.op)))
    ensures s.cpu.phase.Failed? ==> r == s
  {
    var c := s.cpu;
    match c.phase
    case Ready =>
      // fetch: read the opcode at PC, advance PC, end of cycle
      Machine(c.(pc := c.pc + 1, phase := Decoded(ReadByte(s.mem, c.pc))), s.mem)
    case Decoded(op) =>
      (match Dispatch(op)
      case LdaImm =>
        // first cycle of reading the operand: the byte is read, PC is not yet moved
        Machine(c.(phase := LdaOperand(ReadByte(s.mem, c.pc))), s.mem)
      case StaAbs =>
        Machine(c.(phase := StaLow(ReadByte(s.mem, c.pc))), s.mem)
      case Sei =>
        Machine(c.(flags := c.flags.(irqDisable := true), phase := Ready), s.mem)
      case Cld =>
        Machine(c.(flags := c.flags.(decimal := false), phase := Ready), s.mem)
      case Unknown =>
        Machine(c.(phase := Failed(op)), s.mem))
    case LdaOperand(v) =>
      // the operand read completes (PC moves past it), A is loaded, then the
      // handler's own final cycle ends
      var loaded := SetZNPass(c.flags, v);
      Machine(c.(pc := c.pc + 1, a := loaded.1, flags := loaded.0, phase := Ready), s.mem)
    case StaLow(lo) =>
      // the low byte's read completes and the high byte is read
      Machine(c.(pc := c.pc + 1, phase := StaHigh(lo, ReadByte(s.mem, c.pc + 1))), s.mem)
    case StaHigh(lo, hi) =>
      // the high byte's read completes, A goes out on the bus, end of cycle
      Machine(c.(pc := c.pc + 1, phase := Ready), WriteByte(s.mem, lo + 256 * hi, c.a))
    case Failed(_) =>
      s
  }

  /** `n` clock cycles of the instruction stream. */
  function Run(s: Machine, n: nat): (r: Machine)
    decreases n
  {
    if n == 0 then s else Run(Step(s), n - 1)
  }
}
