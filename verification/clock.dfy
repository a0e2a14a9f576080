/** The clock: every tick advances each registered device by exactly one
    cycle, in registration order. All devices share one memory, so a later
    device in the same tick sees the writes of an earlier one. A device
    whose step raises ends the tick at once: the devices after it are not
    stepped. The clock does not care what a device is; the processor's
    instruction stream is the one kind of device the system registers. */
module Clocking {
  import opened Memory
  import opened Processor
  import opened Timing

  /** What the clock needs of a kind of device: one cycle against the shared
      memory, and whether the device has raised (its stream is finished;
      stepping such a device raises again). */
  datatype Kind<!D> = Kind(cycle: (D, Ram) -> (D, Ram), halted: D -> bool)

  /** The registered devices, in order, and the memory they share. */
  datatype Clock<D> = Clock(mem: Ram, devices: seq<D>)

  /** A tick either completes, or stops at the device whose step raised. */
  datatype TickResult<D> = Ticked(clock: Clock<D>) | Raised(clock: Clock<D>, device: nat)

  /** The processor's instruction stream as a clocked device. */
  function CpuKind(): (k: Kind<Cpu>)
  {
    Kind(CpuCycle, (cpu: Cpu) => cpu.phase.Failed?)
  }

  /** One processor cycle against the shared memory. */
  function CpuCycle(cpu: Cpu, m: Ram): (r: (Cpu, Ram))
  {
    var t := Step(Machine(cpu, m));
    (t.cpu, t.mem)
  }

  /** Advances device `i` by one cycle against the shared memory. */
  function StepDevice<D>(kind: Kind<D>, c: Clock<D>, i: nat): (r: Clock<D>)
    requires i < |c.devices|
    ensures |r.devices| == |c.devices|
    ensures forall j :: 0 <= j < |c.devices| && j != i ==> r.devices[j] == c.devices[j]
  {
    var stepped := kind.cycle(c.devices[i], c.mem);
    Clock(stepped.1, c.devices[i := stepped.0])
  }

  /** The devices `i..` of one tick. */
  function TickFrom<D>(kind: Kind<D>, c: Clock<D>, i: nat): (r: TickResult<D>)
    requires i <= |c.devices|
    ensures |r.clock.devices| == |c.devices|
    ensures r.Raised? ==> i <= r.device < |c.devices| && kind.halted(r.clock.devices[r.device])
    ensures r.Raised? ==> forall j :: r.device < j < |c.devices| ==> r.clock.devices[j] == c.devices[j]
    ensures r.Ticked? ==> forall j :: i <= j < |c.devices| ==> !kind.halted(r.clock.devices[j])
    ensures forall j :: 0 <= j < i ==> r.clock.devices[j] == c.devices[j]
    decreases |c.devices| - i
  {
    if i == |c.devices| then Ticked(c)
    else
      var next := StepDevice(kind, c, i);
      if kind.halted(next.devices[i]) then Raised(next, i)
      else TickFrom(kind, next, i + 1)
  }

  /** One tick: each device once, in registration order. */
  function Tick<D>(kind: Kind<D>, c: Clock<D>): (r: TickResult<D>)
  {
    TickFrom(kind, c, 0)
  }

  /** `n` ticks, stopping at the first one that raises. */
  function Ticks<D>(kind: Kind<D>, c: Clock<D>, n: nat): (r: TickResult<D>)
    ensures |r.clock.devices| == |c.devices|
    decreases n
  {
    if n == 0 then Ticked(c)
    else
      match Tick(kind, c)
      case Ticked(next) => Ticks(kind, next, n - 1)
      case Raised(next, d) => Raised(next, d)
  }

  /** A schedule is a sequence of device indices. */
  predicate ValidSchedule(k: nat, sched: seq<nat>)
  {
    forall j :: 0 <= j < |sched| ==> sched[j] < k
  }

  /** Reference semantics: step the devices one cycle each in the order the
      schedule lists them, ignoring whether they raise. */
  function Apply<D>(kind: Kind<D>, c: Clock<D>, sched: seq<nat>): (r: Clock<D>)
    requires ValidSchedule(|c.devices|, sched)
    ensures |r.devices| == |c.devices|
    decreases |sched|
  {
    if |sched| == 0 then c else Apply(kind, StepDevice(kind, c, sched[0]), sched[1..])
  }

  /** The devices `i..j-1`, in order. */
  function Range(i: nat, j: nat): (r: seq<nat>)
    requires i <= j
    ensures |r| == j - i
    ensures forall x :: 0 <= x < |r| ==> r[x] == i + x
  {
    seq(j - i, x => i + x)
  }

  /** `n` rounds of the devices `0..k-1`. */
  function Rounds(k: nat, n: nat): (r: seq<nat>)
    ensures |r| == n * k
    decreases n
  {
    if n == 0 then [] else Rounds(k, n - 1) + Range(0, k)
  }

  /** Stepping along two schedules one after the other. */
  lemma {:induction false} ApplyAppend<D>(kind: Kind<D>, c: Clock<D>, s: seq<nat>, t: seq<nat>)
    requires ValidSchedule(|c.devices|, s) && ValidSchedule(|c.devices|, t)
    ensures ValidSchedule(|c.devices|, s + t)
    ensures Apply(kind, c, s + t) == Apply(kind, Apply(kind, c, s), t)
    decreases |s|
  {
    if |s| > 0 {
      assert (s + t)[1..] == s[1..] + t;
      ApplyAppend(kind, StepDevice(kind, c, s[0]), s[1..], t);
    } else {
      assert s + t == t;
    }
  }

  /** Stepping along a schedule that starts with device `i`. */
  lemma ApplyCons<D>(kind: Kind<D>, c: Clock<D>, i: nat, t: seq<nat>)
    requires i < |c.devices| && ValidSchedule(|c.devices|, t)
    ensures ValidSchedule(|c.devices|, [i] + t)
    ensures Apply(kind, c, [i] + t) == Apply(kind, StepDevice(kind, c, i), t)
  {
    assert ([i] + t)[0] == i;
    assert ([i] + t)[1..] == t;
  }

  /** A range of devices below `k` is a valid schedule for `k` devices. */
  lemma RangeValid(k: nat, i: nat, j: nat)
    requires i <= j <= k
    ensures ValidSchedule(k, Range(i, j))
  {
  }

  /** A range starting at `i` is `i` followed by the rest of the range. */
  lemma RangeCons(i: nat, j: nat)
    requires i < j
    ensures Range(i, j) == [i] + Range(i + 1, j)
  {
  }

  /** A completed tick from device `i` steps `i..k-1` once each, in order. */
  lemma {:induction false} CompletedTickFollowsSchedule<D>(kind: Kind<D>, c: Clock<D>, i: nat)
    requires i <= |c.devices|
    requires TickFrom(kind, c, i).Ticked?
    ensures ValidSchedule(|c.devices|, Range(i, |c.devices|))
    ensures TickFrom(kind, c, i).clock == Apply(kind, c, Range(i, |c.devices|))
    decreases |c.devices| - i
  {
    var k := |c.devices|;
    RangeValid(k, i, k);
    if i < k {
      var next := StepDevice(kind, c, i);
      CompletedTickFollowsSchedule(kind, next, i + 1);
      RangeCons(i, k);
      ApplyCons(kind, c, i, Range(i + 1, k));
    }
  }

  /** A tick that raises at device `d` has stepped `i..d` once each, in
      order. */
  lemma {:induction false} RaisedTickFollowsSchedule<D>(kind: Kind<D>, c: Clock<D>, i: nat)
    requires i <= |c.devices|
    requires TickFrom(kind, c, i).Raised?
    ensures var d := TickFrom(kind, c, i).device;
      && ValidSchedule(|c.devices|, Range(i, d + 1))
      && TickFrom(kind, c, i).clock == Apply(kind, c, Range(i, d + 1))
    decreases |c.devices| - i
  {
    var next := StepDevice(kind, c, i);
    var d := TickFrom(kind, c, i).device;
    RangeValid(|c.devices|, i, d + 1);
    RangeCons(i, d + 1);
    if kind.halted(next.devices[i]) {
      assert Range(i + 1, d + 1) == [];
      ApplyCons(kind, c, i, []);
    } else {
      RaisedTickFollowsSchedule(kind, next, i + 1);
      ApplyCons(kind, c, i, Range(i + 1, d + 1));
    }
  }

  /** `n` completed ticks are exactly `n` rounds of the reference schedule:
      every device stepped once per tick, in registration order. */
  lemma {:induction false} TicksFollowRounds<D>(kind: Kind<D>, c: Clock<D>, n: nat)
    requires Ticks(kind, c, n).Ticked?
    ensures ValidSchedule(|c.devices|, Rounds(|c.devices|, n))
    ensures Ticks(kind, c, n).clock == Apply(kind, c, Rounds(|c.devices|, n))
    decreases n
  {
    var k := |c.devices|;
    RoundsValid(k, n);
    if n > 0 {
      var first := Tick(kind, c).clock;
      assert Ticks(kind, c, n) == Ticks(kind, first, n - 1);
      assert first == Apply(kind, c, Rounds(k, 1)) by {
        CompletedTickFollowsSchedule(kind, c, 0);
        assert Rounds(k, 1) == Range(0, k);
      }
      TicksFollowRounds(kind, first, n - 1);
      RoundsFirst(k, n);
      RoundsValid(k, 1);
      RoundsValid(k, n - 1);
      ApplyAppend(kind, c, Rounds(k, 1), Rounds(k, n - 1));
    }
  }

  /** Every entry of `n` rounds names one of the `k` devices. */
  lemma {:induction false} RoundsValid(k: nat, n: nat)
    ensures ValidSchedule(k, Rounds(k, n))
    decreases n
  {
    if n > 0 {
      RoundsValid(k, n - 1);
      RangeValid(k, 0, k);
    }
  }

  /** Rounds can be peeled from the front as well as from the back. */
  lemma {:induction false} RoundsFirst(k: nat, n: nat)
    requires n > 0
    ensures Rounds(k, n) == Rounds(k, 1) + Rounds(k, n - 1)
    decreases n
  {
    if n > 1 {
      RoundsFirst(k, n - 1);
      assert Rounds(k, 1) == [] + Range(0, k);
    }
  }

  /** In `n` rounds every device is stepped exactly `n` times. */
  lemma {:induction false} EachDeviceSteppedNTimes(k: nat, n: nat, i: nat)
    requires i < k
    ensures multiset(Rounds(k, n))[i] == n
    decreases n
  {
    if n > 0 {
      EachDeviceSteppedNTimes(k, n - 1, i);
      RangeOnce(0, k, i);
    }
  }

  /** Each device of a range occurs in it exactly once. */
  lemma {:induction false} RangeOnce(lo: nat, hi: nat, i: nat)
    requires lo <= i < hi
    ensures multiset(Range(lo, hi))[i] == 1
    decreases hi - lo
  {
    assert Range(lo, hi) == [lo] + Range(lo + 1, hi);
    if i > lo {
      RangeOnce(lo + 1, hi, i);
    } else {
      assert i !in Range(lo + 1, hi);
    }
  }

  /** A tick that completes hands its clock to the remaining ticks. */
  lemma TicksAfterTicked<D>(kind: Kind<D>, c: Clock<D>, n: nat)
    requires n > 0 && Tick(kind, c).Ticked?
    ensures Ticks(kind, c, n) == Ticks(kind, Tick(kind, c).clock, n - 1)
  {
  }

  /** A tick that raises is where the ticks end. */
  lemma TicksAfterRaised<D>(kind: Kind<D>, c: Clock<D>, n: nat)
    requires n > 0 && Tick(kind, c).Raised?
    ensures Ticks(kind, c, n) == Tick(kind, c)
  {
  }

  /** One tick with the processor as the single device is one cycle of it. */
  lemma SingleCpuTick(m: Ram, cpu: Cpu)
    ensures var s1 := Step(Machine(cpu, m));
      Tick(CpuKind(), Clock(m, [cpu])) ==
        if s1.cpu.phase.Failed? then Raised(Clock(s1.mem, [s1.cpu]), 0)
        else Ticked(Clock(s1.mem, [s1.cpu]))
  {
    var s1 := Step(Machine(cpu, m));
    var c := Clock(m, [cpu]);
    assert CpuKind().cycle(cpu, m) == (s1.cpu, s1.mem);
    var next := StepDevice(CpuKind(), c, 0);
    assert next == Clock(s1.mem, [s1.cpu]);
    assert CpuKind().halted(s1.cpu) == s1.cpu.phase.Failed?;
    assert TickFrom(CpuKind(), next, 1) == Ticked(next);
  }

  /** With the processor as the single device, the clock is the processor's
      own cycle count: `n` ticks are `n` cycles, and they raise exactly when
      the processor has failed by the end of them. */
  lemma {:induction false} SingleCpuTicks(s: Machine, n: nat)
    requires !s.cpu.phase.Failed?
    ensures var r := Run(s, n);
      && (!r.cpu.phase.Failed? ==> Ticks(CpuKind(), Clock(s.mem, [s.cpu]), n) == Ticked(Clock(r.mem, [r.cpu])))
      && (r.cpu.phase.Failed? ==> Ticks(CpuKind(), Clock(s.mem, [s.cpu]), n) == Raised(Clock(r.mem, [r.cpu]), 0))
    decreases n
  {
    if n > 0 {
      var s1 := Step(s);
      var c := Clock(s.mem, [s.cpu]);
      var c1 := Clock(s1.mem, [s1.cpu]);
      SingleCpuTick(s.mem, s.cpu);
      assert Run(s, n) == Run(s1, n - 1);
      if s1.cpu.phase.Failed? {
        FailedAbsorbs(s1, n - 1);
        assert Run(s, n).cpu.phase.Failed?;
        assert Tick(CpuKind(), c).Raised?;
        TicksAfterRaised(CpuKind(), c, n);
      } else {
        TicksAfterTicked(CpuKind(), c, n);
        SingleCpuTicks(s1, n - 1);
      }
    }
  }
}
