/** Properties of the processor over several cycles: how many cycles each
    instruction takes from one opcode fetch to the next, what it changes
    and what it leaves alone, and the invariants every run keeps. */
module Timing {
  import opened Memory
  import opened Flags
  import opened Processor

  /** The dispatch table holds exactly the four implemented instructions. */
  lemma DispatchTable(op: Byte)
    ensures Dispatch(op) == LdaImm <==> op == 0xA9
    ensures Dispatch(op) == StaAbs <==> op == 0x8D
    ensures Dispatch(op) == Sei <==> op == 0x78
    ensures Dispatch(op) == Cld <==> op == 0xD8
    ensures Dispatch(op) == Unknown <==> !Implemented(op)
  {
  }

  /** Running `m` cycles and then `n` more is running `m + n` cycles. */
  lemma {:induction false} RunAdd(s: Machine, m: nat, n: nat)
    ensures Run(s, m + n) == Run(Run(s, m), n)
    decreases m
  {
    if m > 0 {
      RunAdd(Step(s), m - 1, n);
    }
  }

  /** Cycles from one opcode fetch to the next, the fetch cycle included;
      for an unknown opcode, the cycle on which it fails. */
  function Cycles(i: Instr): (n: nat)
  {
    match i
    case LdaImm => 3
    case StaAbs => 4
    case Sei => 2
    case Cld => 2
    case Unknown => 2
  }

  /** LDA #imm: three cycles; PC moves past the opcode and its operand, A
      holds the operand, zero and negative describe it, nothing else moves. */
  lemma LdaImmTiming(s: Machine)
    requires s.cpu.phase == Ready && ReadByte(s.mem, s.cpu.pc) == 0xA9
    ensures !Run(s, 1).cpu.phase.Ready? && !Run(s, 2).cpu.phase.Ready?
    ensures var t := Run(s, 3); var v := ReadByte(s.mem, s.cpu.pc + 1);
      && t.cpu.phase == Ready
      && t.cpu.pc == s.cpu.pc + 2
      && t.cpu.a == v
      && (t.cpu.flags.zero <==> v == 0)
      && (t.cpu.flags.negative <==> v >= 0x80)
      && t.cpu.flags.irqDisable == s.cpu.flags.irqDisable
      && t.cpu.flags.decimal == s.cpu.flags.decimal
      && SameIndexRegs(s.cpu, t.cpu)
      && t.mem == s.mem
  {
    var s1 := Step(s);
    var s2 := Step(s1);
    assert Run(s, 3) == Step(s2) by {
      RunAdd(s, 2, 1);
    }
  }

  /** STA abs: four cycles; PC moves past the opcode and both address
      bytes, A is written to the little-endian address through the bus
      (so not at all at or above 0x8000), no register or flag changes. */
  lemma StaAbsTiming(s: Machine)
    requires s.cpu.phase == Ready && ReadByte(s.mem, s.cpu.pc) == 0x8D
    ensures !Run(s, 1).cpu.phase.Ready? && !Run(s, 2).cpu.phase.Ready?
    ensures !Run(s, 3).cpu.phase.Ready?
    ensures var t := Run(s, 4);
      && t.cpu.phase == Ready
      && t.cpu.pc == s.cpu.pc + 3
      && t.mem == WriteByte(s.mem, ReadWord(s.mem, s.cpu.pc + 1), s.cpu.a)
      && t.cpu.a == s.cpu.a && t.cpu.flags == s.cpu.flags
      && SameIndexRegs(s.cpu, t.cpu)
  {
    var s1 := Step(s);
    var s2 := Step(s1);
    var s3 := Step(s2);
    assert Run(s, 3) == s3 by {
      RunAdd(s, 2, 1);
    }
    assert Run(s, 4) == Step(s3) by {
      RunAdd(s, 3, 1);
    }
  }

  /** SEI: two cycles; sets interrupt-disable and nothing else. */
  lemma SeiTiming(s: Machine)
    requires s.cpu.phase == Ready && ReadByte(s.mem, s.cpu.pc) == 0x78
    ensures !Run(s, 1).cpu.phase.Ready?
    ensures Run(s, 2) == Machine(s.cpu.(pc := s.cpu.pc + 1, flags := s.cpu.flags.(irqDisable := true)), s.mem)
  {
  }

  /** CLD: two cycles; clears decimal and nothing else. */
  lemma CldTiming(s: Machine)
    requires s.cpu.phase == Ready && ReadByte(s.mem, s.cpu.pc) == 0xD8
    ensures !Run(s, 1).cpu.phase.Ready?
    ensures Run(s, 2) == Machine(s.cpu.(pc := s.cpu.pc + 1, flags := s.cpu.flags.(decimal := false)), s.mem)
  {
  }

  /** Every implemented instruction returns to an opcode fetch after exactly
      `Cycles` cycles, and not earlier. */
  lemma InstructionCycles(s: Machine)
    requires s.cpu.phase == Ready && Implemented(ReadByte(s.mem, s.cpu.pc))
    ensures var n := Cycles(Dispatch(ReadByte(s.mem, s.cpu.pc)));
      && Run(s, n).cpu.phase == Ready
      && forall k :: 0 < k < n ==> !Run(s, k).cpu.phase.Ready?
  {
    var op := ReadByte(s.mem, s.cpu.pc);
    var n := Cycles(Dispatch(op));
    DispatchTable(op);
    if op == 0xA9 {
      LdaImmTiming(s);
      assert n == 3;
    } else if op == 0x8D {
      StaAbsTiming(s);
      assert n == 4;
    } else if op == 0x78 {
      SeiTiming(s);
      assert n == 2;
    } else {
      CldTiming(s);
      assert n == 2;
    }
    forall k | 0 < k < n
      ensures !Run(s, k).cpu.phase.Ready?
    {
      assert k == 1 || k == 2 || k == 3;
    }
  }

  /** An opcode outside the four: the cycle after its fetch fails with that
      opcode, PC just past it, and nothing else changed. */
  lemma UnknownOpcodeFails(s: Machine)
    requires s.cpu.phase == Ready && !Implemented(ReadByte(s.mem, s.cpu.pc))
    ensures !Run(s, 1).cpu.phase.Failed?
    ensures Run(s, Cycles(Unknown)) ==
      Machine(s.cpu.(pc := s.cpu.pc + 1, phase := Failed(ReadByte(s.mem, s.cpu.pc))), s.mem)
  {
  }

  /** A failed instruction stream stays exactly as it failed. */
  lemma {:induction false} FailedAbsorbs(s: Machine, n: nat)
    requires s.cpu.phase.Failed?
    ensures Run(s, n) == s
    decreases n
  {
    if n > 0 {
      FailedAbsorbs(Step(s), n - 1);
    }
  }

  /** Once failed, failed for good: a run that ends healthy was healthy at
      every cycle on the way. */
  lemma {:induction false} FailureIsFinal(s: Machine, m: nat, n: nat)
    requires Run(s, m).cpu.phase.Failed?
    ensures Run(s, m + n).cpu.phase.Failed?
  {
    RunAdd(s, m, n);
    FailedAbsorbs(Run(s, m), n);
  }

  /** No cycle ever changes X, Y or S, or any byte at or above 0x8000. */
  lemma {:induction false} RunInvariants(s: Machine, n: nat)
    ensures SameIndexRegs(s.cpu, Run(s, n).cpu)
    ensures forall a :: ProtectedBase <= a < 0x10000 ==> Run(s, n).mem[a] == s.mem[a]
    decreases n
  {
    if n > 0 {
      RunInvariants(Step(s), n - 1);
    }
  }

  /** PC never moves backwards, and by at most one per cycle. */
  lemma {:induction false} PcMonotone(s: Machine, n: nat)
    ensures s.cpu.pc <= Run(s, n).cpu.pc <= s.cpu.pc + n
    decreases n
  {
    if n > 0 {
      PcMonotone(Step(s), n - 1);
    }
  }

  /** A short program: LDA #$42 then STA $0000. Seven cycles later (three
      for the load, four for the store) A holds 0x42, neither zero nor
      negative is set, and RAM address 0 holds 0x42. */
  lemma LoadThenStore(s: Machine)
    requires s.cpu.phase == Ready
    requires ReadByte(s.mem, s.cpu.pc) == 0xA9 && ReadByte(s.mem, s.cpu.pc + 1) == 0x42
    requires ReadByte(s.mem, s.cpu.pc + 2) == 0x8D
    requires ReadByte(s.mem, s.cpu.pc + 3) == 0x00 && ReadByte(s.mem, s.cpu.pc + 4) == 0x00
    ensures var t := Run(s, 7);
      && t.cpu.phase == Ready && t.cpu.pc == s.cpu.pc + 5
      && t.cpu.a == 0x42 && !t.cpu.flags.zero && !t.cpu.flags.negative
      && ReadByte(t.mem, 0) == 0x42
  {
    LdaImmTiming(s);
    var u := Run(s, 3);
    StaAbsTiming(u);
    RunAdd(s, 3, 4);
  }

  /** Booting from an accepted ROM: the processor starts at the address held
      little-endian in the image's bytes 0x3FFC and 0x3FFD. */
  lemma ResetVectorFromImage(image: seq<Byte>)
    requires CheckRom(image).Rom?
    ensures New(LoadOs(Blank(), image).mem).pc == image[0x3FFC] as int + 256 * (image[0x3FFD] as int)
  {
    AcceptedRomFillsTop(Blank(), image);
  }
}
