/** The virtual I/O APIC: 24 redirection entries, edge and level inputs. */
module IoApic {
  import opened Modular

  const INPUTS := 24

  datatype IoRegs = IoRegs(
    redirection: seq<nat>, asserted: set<nat>, edgePending: set<nat>, remoteIrr: set<nat>,
    acceptedVector: seq<nat>, selector: nat, id: nat)

  datatype RouteInfo = NoRoute | RouteTo(vector: nat, destination: nat, logical: bool, level: bool)

  datatype IoAccess = IoRefused | IoDone(regs: IoRegs, value: nat)

  predicate Shaped(s: IoRegs) {
    |s.redirection| == INPUTS && |s.acceptedVector| == INPUTS
  }

  function InitIo(id: nat): (s: IoRegs)
    ensures Shaped(s) && s.remoteIrr == {}
  {
    IoRegs(seq(INPUTS, _ => 0x1_0000), {}, {}, {}, seq(INPUTS, _ => 0), 0, id)
  }

  predicate MaskBit(rte: nat) { rte / 0x1_0000 % 2 == 1 }
  predicate LevelBit(rte: nat) { rte / 0x8000 % 2 == 1 }

  const HALF := 0x1_0000_0000

  /** A redirection half-word a guest may store: fixed or lowest-priority delivery,
      a legal vector unless masked; the two read-only status bits are dropped. */
  function LowHalf(data: nat): (r: nat) {
    data - data / 0x1000 % 2 * 0x1000 - data / 0x4000 % 2 * 0x4000
  }

  predicate LowAllowed(data: nat) {
    data < 0x2_0000 && LowHalf(data) / 0x100 % 8 <= 1 && (MaskBit(data) || data % 0x100 >= 16)
  }

  /** Vector 0x41 by level is a half that may be stored, and is stored as it is. */
  lemma LevelLow(v: nat)
    requires v == 0x8041
    ensures LowAllowed(v) && LowHalf(v) == v
  {
    DivModUnique(v, 0x80, 0x41, 0x100);
    DivModUnique(v, 8, 0x41, 0x1000);
    DivModUnique(v, 2, 0x41, 0x4000);
    LevelBits(v / 0x1000, v / 0x4000, v / 0x100);
  }

  lemma LevelBits(a: nat, b: nat, c: nat)
    requires a == 8 && b == 2 && c == 0x80
    ensures a % 2 == b % 2 == c % 8 == 0
  {
  }

  function Access(s: IoRegs, offset: nat, write: bool, value: nat): (a: IoAccess)
    requires Shaped(s)
    ensures a.IoDone? ==> Shaped(a.regs) && a.regs.remoteIrr == s.remoteIrr
                          && a.regs.acceptedVector == s.acceptedVector
                          && a.regs.asserted == s.asserted && a.regs.edgePending == s.edgePending
  {
    if offset == 0 then
      if write then if value > 255 then IoRefused else IoDone(s.(selector := value), value)
      else IoDone(s, s.selector)
    else if offset != 0x10 then IoRefused
    else
      var reg := s.selector;
      if reg == 0 || reg == 2 then
        var id := s.id * 0x100_0000;
        if write then if reg == 0 && value == id then IoDone(s, value) else IoRefused
        else IoDone(s, id)
      else if reg == 1 then
        if write then IoRefused else IoDone(s, (INPUTS - 1) * 0x1_0000 + 0x11)
      else if reg < 0x10 || reg >= 0x10 + 2 * INPUTS then IoRefused
      else Entry(s, (reg - 0x10) / 2, reg % 2 == 1, write, value)
  }

  /** Half of an entry as a guest reads it, with remote IRR in its bit. */
  function Readback(entry: nat, remote: bool, high: bool): (v: nat) {
    var e := entry + if remote && entry / 0x4000 % 2 == 0 then 0x4000 else 0;
    if high then e / HALF else e % HALF
  }

  /** One half of a redirection entry; remote IRR is shown, not stored. */
  function Entry(s: IoRegs, input: nat, high: bool, write: bool, value: nat): (a: IoAccess)
    requires Shaped(s) && input < INPUTS
    ensures a.IoDone? ==> a.regs == s.(redirection := a.regs.redirection) && |a.regs.redirection| == INPUTS
  {
    var entry := s.redirection[input];
    if !write then IoDone(s, Readback(entry, input in s.remoteIrr, high))
    else if high then
      if value % 0x100_0000 != 0 then IoRefused
      else IoDone(s.(redirection := s.redirection[input := entry % HALF + value * HALF]), value)
    else if !LowAllowed(value) then IoRefused
    else IoDone(s.(redirection := s.redirection[input := entry / HALF * HALF + LowHalf(value)]), value)
  }

  /** A stored half reads back, with remote IRR in place of the status bits, and the other
      half and every other entry read as before. */
  lemma EntryReadsBack(s: IoRegs, input: nat, high: bool, value: nat, other: nat)
    requires Shaped(s) && input < INPUTS && other < INPUTS && Entry(s, input, high, true, value).IoDone?
    ensures var t := Entry(s, input, high, true, value).regs;
            && (high ==> Entry(t, input, true, false, 0).value == value)
            && (!high ==> Entry(t, input, false, false, 0).value
                          == LowHalf(value) + if input in s.remoteIrr then 0x4000 else 0)
            && Entry(t, input, !high, false, 0).value == Entry(s, input, !high, false, 0).value
            && (other != input ==> Entry(t, other, high, false, 0).value == Entry(s, other, high, false, 0).value)
  {
    hide Readback, LowHalf;
    var entry, remote := s.redirection[input], input in s.remoteIrr;
    if high {
      NewHigh(entry, value, remote);
    } else {
      StatusDropped(value);
      NewLow(entry, LowHalf(value), remote);
    }
  }

  lemma NewHigh(entry: nat, value: nat, remote: bool)
    ensures var e := entry % HALF + value * HALF;
            Readback(e, remote, true) == value && Readback(e, remote, false) == Readback(entry, remote, false)
  {
    SplitEntry(entry % HALF, value);
    SplitEntry(entry % HALF, entry / HALF);
  }

  lemma NewLow(entry: nat, low: nat, remote: bool)
    requires low < 0x2_0000 && low / 0x4000 % 2 == 0
    ensures var e := entry / HALF * HALF + low;
            && Readback(e, remote, false) == low + (if remote then 0x4000 else 0)
            && Readback(e, remote, true) == Readback(entry, remote, true)
  {
    SplitEntry(low, entry / HALF);
    SplitEntry(entry % HALF, entry / HALF);
  }

  /** The halves of an entry, and of the entry with remote IRR shown. */
  lemma SplitEntry(lo: nat, hi: nat)
    requires lo < HALF
    ensures var e, bit := lo + hi * HALF, lo / 0x4000 % 2;
            && e / HALF == hi && e % HALF == lo && e / 0x4000 % 2 == bit
            && (bit == 0 ==> (e + 0x4000) / HALF == hi && (e + 0x4000) % HALF == lo + 0x4000)
  {
    var e, q := lo + hi * HALF, lo / 0x4000;
    DivModUnique(e, hi, lo, HALF);
    DivModUnique(e, q + hi * 0x4_0000, lo % 0x4000, 0x4000);
    CongIntro(q + hi * 0x4_0000, q, hi * 0x2_0000, 2);
    if q % 2 == 0 {
      DivModUnique(e + 0x4000, hi, lo + 0x4000, HALF);
    }
  }

  lemma StatusDropped(data: nat)
    requires data < 0x2_0000
    ensures LowHalf(data) < 0x2_0000 && LowHalf(data) / 0x4000 % 2 == 0
  {
  }

  function SetIrq(s: IoRegs, input: nat, level: bool): IoRegs
    requires Shaped(s)
  {
    if input >= INPUTS then s
    else if !level then s.(asserted := s.asserted - {input})
    else
      var rte := s.redirection[input];
      var edge := input !in s.asserted && !MaskBit(rte) && !LevelBit(rte);
      s.(edgePending := if edge then s.edgePending + {input} else s.edgePending, asserted := s.asserted + {input})
  }

  function Route(s: IoRegs, input: nat): (r: RouteInfo)
    requires Shaped(s)
    ensures r.RouteTo? ==> input < INPUTS && 16 <= r.vector < 256 && input !in s.remoteIrr
  {
    if input >= INPUTS then NoRoute
    else
      var rte := s.redirection[input];
      if MaskBit(rte) || input in s.remoteIrr || rte % 0x100 < 16
         || input !in (if LevelBit(rte) then s.asserted else s.edgePending) then NoRoute
      else RouteTo(rte % 0x100, rte / 0x100_0000_0000_0000 % 0x100, rte / 0x800 % 2 == 1, LevelBit(rte))
  }

  function Accept(s: IoRegs, input: nat): (s': IoRegs)
    requires Shaped(s)
    ensures Shaped(s')
  {
    match Route(s, input)
    case NoRoute => s
    case RouteTo(vector, _, _, level) =>
      var t := s.(edgePending := s.edgePending - {input});
      if level then t.(remoteIrr := t.remoteIrr + {input}, acceptedVector := t.acceptedVector[input := vector]) else t
  }

  /** Inputs below n whose accepted vector is being ended. */
  function Ending(s: IoRegs, vector: nat, n: nat): (e: set<nat>)
    requires Shaped(s) && n <= INPUTS
    ensures forall i :: i in e <==> i < n && i in s.remoteIrr && s.acceptedVector[i] == vector
  {
    if n == 0 then {}
    else Ending(s, vector, n - 1)
         + if n - 1 in s.remoteIrr && s.acceptedVector[n - 1] == vector then {n - 1} else {}
  }

  function Eoi(s: IoRegs, vector: nat): (s': IoRegs)
    requires Shaped(s)
    ensures Shaped(s') && s' == s.(remoteIrr := s'.remoteIrr)
    ensures forall i :: i in s'.remoteIrr <==>
              i in s.remoteIrr && !(16 <= vector <= 255 && i < INPUTS && s.acceptedVector[i] == vector)
  {
    if vector < 16 || vector > 255 then s else s.(remoteIrr := s.remoteIrr - Ending(s, vector, INPUTS))
  }

  /** The controller object: set_irq, accept and eoi update it in place. */
  class Controller {
    var s: IoRegs

    constructor (id: nat)
      requires id <= 15
      ensures s == InitIo(id)
    {
      s := InitIo(id);
    }

    method Init(id: nat) returns (ok: bool)
      modifies this
      ensures ok == (id <= 15) && s == if ok then InitIo(id) else old(s)
    {
      if id > 15 {
        return false;
      }
      s := InitIo(id);
      return true;
    }

    method EndOfInterrupt(vector: nat)
      requires Shaped(s)
      modifies this
      ensures s == Eoi(old(s), vector)
    {
      if vector < 16 || vector > 255 {
        return;
      }
      ghost var s0 := s;
      for i := 0 to INPUTS
        invariant s == s0.(remoteIrr := s0.remoteIrr - Ending(s0, vector, i))
      {
        if i in s.remoteIrr && s.acceptedVector[i] == vector {
          s := s.(remoteIrr := s.remoteIrr - {i});
        }
      }
    }
  }
}

/** CPUs and I/O APIC together, as the vCPU loop drives them. */
module Interrupts {
  import opened Lapic
  import IO = IoApic

  datatype Cpu = Cpu(apic: Regs, running: bool)
  datatype System = System(cpus: seq<Cpu>, io: IO.IoRegs)

  /** Everything a guest, a device model or the scheduler can make happen. */
  datatype Step =
    | SetIrq(input: nat, level: bool)
    | IoApicAccess(offset: nat, write: bool, value: nat)
    | Deliver(input: nat)
    | Poll(cpu: nat, ticks: nat)
    | AcceptIrq(cpu: nat, vector: nat)
    | ApicAccess(cpu: nat, off: nat, write: bool, value: nat, ticks: nat)
    | Icr(cpu: nat, command: nat, ticks: nat)
    | Schedule(cpu: nat, running: bool)

  // ---- delivery -----------------------------------------------------------

  predicate Takes(c: Cpu, r: IO.RouteInfo)
    requires r.RouteTo?
  {
    c.running && CanRoute(c.apic, r.vector, r.destination, r.logical)
  }

  function DeliverTo(c: Cpu, r: IO.RouteInfo): Cpu
    requires r.RouteTo?
  {
    if Takes(c, r) then c.(apic := Routed(c.apic, r.vector, r.level)) else c
  }

  /** The route is offered to every running CPU; the I/O APIC accepts when one took it. */
  function DeliverStep(s: System, input: nat): System
    requires IO.Shaped(s.io)
  {
    var r := IO.Route(s.io, input);
    if r.NoRoute? then s
    else
      var cpus := seq(|s.cpus|, i requires 0 <= i < |s.cpus| => DeliverTo(s.cpus[i], r));
      if exists i | 0 <= i < |s.cpus| :: Takes(s.cpus[i], r) then System(cpus, IO.Accept(s.io, input))
      else System(cpus, s.io)
  }

  // ---- inter-processor commands -------------------------------------------

  predicate IcrValid(s: System, sender: nat, command: nat, ticks: nat) {
    var mode, vector, level := command / 0x100 % 8, command % 0x100, command / 0x8000 % 2 == 1;
    && sender < |s.cpus| && OnlyBits(command, 0x000c_cfff)
    && (mode == 0 || mode == 5 || mode == 6)
    && !((mode == 0 && (vector < 16 || level)) || (mode == 6 && level))
    && (forall i | 0 <= i < |s.cpus| :: s.cpus[i].apic.id != 255 && s.cpus[i].apic.now <= ticks)
    && (forall i, j | 0 <= j < i < |s.cpus| :: s.cpus[i].apic.id != s.cpus[j].apic.id)
  }

  predicate Targeted(s: System, sender: nat, command: nat, i: nat)
    requires sender < |s.cpus| && i < |s.cpus|
  {
    var shortcut := command / 0x4_0000 % 4;
    if shortcut == 1 then i == sender
    else if shortcut == 2 then true
    else if shortcut == 3 then i != sender
    else Destination(s.cpus[i].apic, s.cpus[sender].apic.icrHigh / 0x100_0000, command / 0x800 % 2 == 1)
  }

  /** An INIT that takes effect: it resets the local APIC of every target. */
  predicate IsInit(command: nat) {
    command / 0x100 % 8 == 5 && !(command / 0x8000 % 2 == 1 && command / 0x4000 % 2 == 0)
  }

  function Commanded(c: Cpu, command: nat, ticks: nat): Cpu {
    var a, vector := c.apic, command % 0x100;
    if command / 0x100 % 8 == 0 then
      if CanRoute(a, vector, a.id, false) then c.(apic := Routed(a, vector, false)) else c
    else if IsInit(command) then Cpu(InitCpu(ticks, a.id, a.bootstrap), false)
    else c
  }

  function IcrStep(s: System, sender: nat, command: nat, ticks: nat): System {
    if !IcrValid(s, sender, command, ticks) then s
    else
      var own := Advance(s.cpus[sender].apic, ticks).(icrLow := command);
      var sent := s.cpus[sender := s.cpus[sender].(apic := own)];
      s.(cpus := seq(|s.cpus|, i requires 0 <= i < |s.cpus| =>
           if Targeted(s, sender, command, i) then Commanded(sent[i], command, ticks) else sent[i]))
  }

  // ---- the transition function --------------------------------------------

  function WithApic(s: System, cpu: nat, r: Regs): System
    requires cpu < |s.cpus|
  {
    s.(cpus := s.cpus[cpu := s.cpus[cpu].(apic := r)])
  }

  function Next(s: System, step: Step): System
    requires IO.Shaped(s.io)
  {
    match step
    case SetIrq(input, level) => s.(io := IO.SetIrq(s.io, input, level))
    case IoApicAccess(offset, write, value) =>
      (match IO.Access(s.io, offset, write, value)
       case IoRefused => s
       case IoDone(regs, _) => s.(io := regs))
    case Deliver(input) => DeliverStep(s, input)
    case Poll(cpu, ticks) =>
      if cpu < |s.cpus| && s.cpus[cpu].apic.now <= ticks
      then WithApic(s, cpu, Advance(s.cpus[cpu].apic, ticks)) else s
    case AcceptIrq(cpu, vector) =>
      if cpu < |s.cpus| && CanAccept(s.cpus[cpu].apic, vector)
      then WithApic(s, cpu, Accepted(s.cpus[cpu].apic, vector)) else s
    case ApicAccess(cpu, off, write, value, ticks) =>
      if cpu >= |s.cpus| || (off == 0x300 && write) then s
      else
        var a := s.cpus[cpu].apic;
        (match Io(a, off, write, value, ticks)
         case Refused => s
         case Done(regs, _) =>
           var t := WithApic(s, cpu, regs);
           if off == 0xb0 && EoiVector(a) != 0 then t.(io := IO.Eoi(t.io, EoiVector(a))) else t)
    case Icr(cpu, command, ticks) => IcrStep(s, cpu, command, ticks)
    case Schedule(cpu, running) =>
      if cpu < |s.cpus| then s.(cpus := s.cpus[cpu := s.cpus[cpu].(running := running)]) else s
  }

  function Run(s: System, steps: seq<Step>): System
    requires IO.Shaped(s.io)
    decreases |steps|
  {
    if steps == [] then s
    else
      var t := Run(s, steps[..|steps| - 1]);
      if IO.Shaped(t.io) then Next(t, steps[|steps| - 1]) else t
  }

  // ---- no level interrupt is stranded --------------------------------------

  ghost predicate HeldBy(s: System, v: nat, c: nat) {
    c < |s.cpus| && Holds(s.cpus[c].apic, v)
  }

  /** Every input waiting for an end of interrupt has a CPU that owes one. */
  ghost predicate NoneStranded(s: System)
    requires IO.Shaped(s.io)
  {
    forall i | i in s.io.remoteIrr :: i < IO.INPUTS && exists c :: HeldBy(s, s.io.acceptedVector[i], c)
  }

  ghost predicate Inv(s: System) {
    IO.Shaped(s.io) && (forall c | 0 <= c < |s.cpus| :: Ok(s.cpus[c].apic)) && NoneStranded(s)
  }

  /** Replacing CPU states keeps the invariant when each keeps what it served. */
  lemma CpusKeep(s: System, s': System, gone: nat)
    requires Inv(s) && |s'.cpus| == |s.cpus| && IO.Shaped(s'.io)
    requires forall c | 0 <= c < |s.cpus| :: Keeps(s.cpus[c].apic, s'.cpus[c].apic, gone)
    requires s'.io.remoteIrr <= s.io.remoteIrr
    requires forall i | i in s'.io.remoteIrr && i < IO.INPUTS ::
               s'.io.acceptedVector[i] == s.io.acceptedVector[i] && s.io.acceptedVector[i] != gone
    ensures Inv(s')
  {
    forall i | i in s'.io.remoteIrr
      ensures i < IO.INPUTS && exists c :: HeldBy(s', s'.io.acceptedVector[i], c)
    {
      var c: nat :| HeldBy(s, s.io.acceptedVector[i], c);
      assert HeldBy(s', s'.io.acceptedVector[i], c);
    }
  }

  lemma SameKeeps(r: Regs)
    requires Ok(r)
    ensures Keeps(r, r, 0)
  {
  }

  lemma IoOnlyKeeps(s: System, io: IO.IoRegs)
    requires Inv(s) && IO.Shaped(io) && io.remoteIrr == s.io.remoteIrr && io.acceptedVector == s.io.acceptedVector
    ensures Inv(s.(io := io))
  {
    var s' := s.(io := io);
    forall i | i in io.remoteIrr
      ensures i < IO.INPUTS && exists c :: HeldBy(s', io.acceptedVector[i], c)
    {
      var c: nat :| HeldBy(s, s.io.acceptedVector[i], c);
      assert HeldBy(s', io.acceptedVector[i], c);
    }
  }

  lemma ApicKeeps(s: System, cpu: nat, r: Regs, io: IO.IoRegs, gone: nat)
    requires Inv(s) && cpu < |s.cpus| && Keeps(s.cpus[cpu].apic, r, gone)
    requires (io == s.io && gone == 0) || (io == IO.Eoi(s.io, gone) && 16 <= gone < 256)
    requires forall i | i in s.io.remoteIrr && i < IO.INPUTS :: s.io.acceptedVector[i] != 0
    ensures Inv(WithApic(s, cpu, r).(io := io))
  {
    var s' := WithApic(s, cpu, r).(io := io);
    forall c | 0 <= c < |s.cpus|
      ensures Keeps(s.cpus[c].apic, s'.cpus[c].apic, gone)
    {
    }
    CpusKeep(s, s', gone);
  }

  /** A held level vector is never zero. */
  lemma AcceptedNonzero(s: System)
    requires Inv(s)
    ensures forall i | i in s.io.remoteIrr && i < IO.INPUTS :: s.io.acceptedVector[i] != 0
  {
    forall i | i in s.io.remoteIrr && i < IO.INPUTS
      ensures s.io.acceptedVector[i] != 0
    {
      var c: nat :| HeldBy(s, s.io.acceptedVector[i], c);
      assert Ok(s.cpus[c].apic);
    }
  }

  lemma DeliverKeeps(s: System, input: nat)
    requires Inv(s)
    ensures Inv(DeliverStep(s, input))
  {
    hide CanRoute;
    var r := IO.Route(s.io, input);
    if r.RouteTo? {
      var s' := DeliverStep(s, input);
      forall c | 0 <= c < |s.cpus|
        ensures Keeps(s.cpus[c].apic, s'.cpus[c].apic, 0)
        ensures Takes(s.cpus[c], r) && r.level ==> Holds(s'.cpus[c].apic, r.vector)
      {
        RouteKeeps(s.cpus[c].apic, r.vector, r.level);
        SameKeeps(s.cpus[c].apic);
      }
      AcceptedNonzero(s);
      DeliveredHolds(s, s', r, input);
    }
  }

  lemma DeliveredHolds(s: System, s': System, r: IO.RouteInfo, input: nat)
    requires Inv(s) && r == IO.Route(s.io, input) && r.RouteTo? && |s'.cpus| == |s.cpus|
    requires forall c | 0 <= c < |s.cpus| :: Keeps(s.cpus[c].apic, s'.cpus[c].apic, 0)
    requires forall c | 0 <= c < |s.cpus| :: Takes(s.cpus[c], r) && r.level ==> Holds(s'.cpus[c].apic, r.vector)
    requires forall i | i in s.io.remoteIrr && i < IO.INPUTS :: s.io.acceptedVector[i] != 0
    requires s'.io == if exists i | 0 <= i < |s.cpus| :: Takes(s.cpus[i], r) then IO.Accept(s.io, input) else s.io
    ensures Inv(s')
  {
    hide CanRoute;
    forall i | i in s'.io.remoteIrr
      ensures i < IO.INPUTS && exists c :: HeldBy(s', s'.io.acceptedVector[i], c)
    {
      if i in s.io.remoteIrr {
        var c: nat :| HeldBy(s, s.io.acceptedVector[i], c);
        assert HeldBy(s', s'.io.acceptedVector[i], c);
      } else {
        var c :| 0 <= c < |s.cpus| && Takes(s.cpus[c], r);
        assert HeldBy(s', s'.io.acceptedVector[i], c);
      }
    }
  }

  lemma CommandKeeps(c: Cpu, command: nat, ticks: nat)
    requires Ok(c.apic) && !IsInit(command) && (command / 0x100 % 8 == 0 ==> command % 0x100 >= 16)
    ensures Keeps(c.apic, Commanded(c, command, ticks).apic, 0)
  {
    hide CanRoute;
    RouteKeeps(c.apic, if command % 0x100 >= 16 then command % 0x100 else 16, false);
    SameKeeps(c.apic);
  }

  lemma SenderKeeps(r: Regs, command: nat, ticks: nat)
    requires Ok(r) && r.now <= ticks
    ensures Keeps(r, Advance(r, ticks).(icrLow := command), 0)
  {
    AdvanceKeeps(r, ticks);
    hide Advance, Divisor;
    SameDivisor(Advance(r, ticks), Advance(r, ticks).(icrLow := command));
  }

  lemma KeepsTrans(a: Regs, b: Regs, c: Regs)
    requires Keeps(a, b, 0) && Keeps(b, c, 0)
    ensures Keeps(a, c, 0)
  {
  }

  lemma IcrKeeps(s: System, sender: nat, command: nat, ticks: nat)
    requires Inv(s) && !IsInit(command)
    ensures Inv(IcrStep(s, sender, command, ticks))
  {
    if IcrValid(s, sender, command, ticks) {
      var s' := IcrStep(s, sender, command, ticks);
      var own := Advance(s.cpus[sender].apic, ticks).(icrLow := command);
      SenderKeeps(s.cpus[sender].apic, command, ticks);
      hide Advance, Keeps, Ok, Targeted, Commanded, IsInit, OnlyBits;
      forall c | 0 <= c < |s.cpus|
        ensures Keeps(s.cpus[c].apic, s'.cpus[c].apic, 0)
      {
        IcrCpu(s, sender, command, ticks, c, own);
      }
      AcceptedNonzero(s);
      CpusKeep(s, s', 0);
    }
  }

  lemma IcrCpu(s: System, sender: nat, command: nat, ticks: nat, c: nat, own: Regs)
    requires Inv(s) && !IsInit(command) && IcrValid(s, sender, command, ticks) && c < |s.cpus|
    requires own == Advance(s.cpus[sender].apic, ticks).(icrLow := command) && Keeps(s.cpus[sender].apic, own, 0)
    ensures Keeps(s.cpus[c].apic, IcrStep(s, sender, command, ticks).cpus[c].apic, 0)
  {
    hide Advance, Targeted, Commanded, OnlyBits;
    var mid := if c == sender then s.cpus[c].(apic := own) else s.cpus[c];
    SameKeeps(s.cpus[c].apic);
    CommandKeeps(mid, command, ticks);
    KeepsTrans(s.cpus[c].apic, mid.apic, Commanded(mid, command, ticks).apic);
  }

  lemma AccessKeeps(s: System, cpu: nat, off: nat, write: bool, value: nat, ticks: nat)
    requires Inv(s)
    ensures Inv(Next(s, ApicAccess(cpu, off, write, value, ticks)))
  {
    if cpu < |s.cpus| && !(off == 0x300 && write) {
      var a := s.cpus[cpu].apic;
      var res := Io(a, off, write, value, ticks);
      if res.Done? {
        IoKeeps(a, off, write, value, ticks);
        AcceptedNonzero(s);
        hide Io, Keeps;
        if off == 0xb0 && EoiVector(a) != 0 {
          ApicKeeps(s, cpu, res.regs, IO.Eoi(s.io, EoiVector(a)), EoiVector(a));
        } else {
          ApicKeeps(s, cpu, res.regs, s.io, 0);
        }
      }
    }
  }

  /** Every step except an effective INIT keeps every level interrupt answered for. */
  lemma NextKeeps(s: System, step: Step)
    requires Inv(s) && !(step.Icr? && IsInit(step.command))
    ensures Inv(Next(s, step))
  {
    hide Advance, Divisor, Keeps, Ok, CanRoute, Io, IcrStep, DeliverStep, CanAccept, HeldBy;
    match step
    case SetIrq(input, level) => IoOnlyKeeps(s, IO.SetIrq(s.io, input, level));
    case IoApicAccess(offset, write, value) =>
      var a := IO.Access(s.io, offset, write, value);
      if a.IoDone? {
        IoOnlyKeeps(s, a.regs);
      }
    case Deliver(input) => DeliverKeeps(s, input);
    case Poll(cpu, ticks) =>
      if cpu < |s.cpus| && s.cpus[cpu].apic.now <= ticks {
        AdvanceKeeps(s.cpus[cpu].apic, ticks);
        AcceptedNonzero(s);
        ApicKeeps(s, cpu, Advance(s.cpus[cpu].apic, ticks), s.io, 0);
      }
    case AcceptIrq(cpu, vector) =>
      if cpu < |s.cpus| && CanAccept(s.cpus[cpu].apic, vector) {
        AcceptKeeps(s.cpus[cpu].apic, vector);
        AcceptedNonzero(s);
        ApicKeeps(s, cpu, Accepted(s.cpus[cpu].apic, vector), s.io, 0);
      }
    case ApicAccess(cpu, off, write, value, ticks) => AccessKeeps(s, cpu, off, write, value, ticks);
    case Icr(cpu, command, ticks) => IcrKeeps(s, cpu, command, ticks);
    case Schedule(cpu, running) => ScheduleKeeps(s, cpu, running);
  }

  lemma ScheduleKeeps(s: System, cpu: nat, running: bool)
    requires Inv(s)
    ensures Inv(Next(s, Schedule(cpu, running)))
  {
    var s' := Next(s, Schedule(cpu, running));
    forall c | 0 <= c < |s.cpus|
      ensures Keeps(s.cpus[c].apic, s'.cpus[c].apic, 0)
    {
      SameKeeps(s.cpus[c].apic);
    }
    AcceptedNonzero(s);
    CpusKeep(s, s', 0);
  }

  ghost predicate NoInit(steps: seq<Step>) {
    forall i | 0 <= i < |steps| :: !(steps[i].Icr? && IsInit(steps[i].command))
  }

  /** In every run without INIT, an input waits only while some CPU owes its EOI. */
  lemma {:induction false} RunKeeps(s: System, steps: seq<Step>)
    requires Inv(s) && NoInit(steps)
    ensures Inv(Run(s, steps))
    decreases |steps|
  {
    if steps != [] {
      var n := |steps| - 1;
      RunKeeps(s, steps[..n]);
      NextKeeps(Run(s, steps[..n]), steps[n]);
    }
  }

  /** Power-on: n CPUs with distinct identities, every input masked. */
  function PowerOn(n: nat, ticks: nat, ioId: nat): System {
    System(seq(n, i requires 0 <= i < n => Cpu(InitCpu(ticks, i, i == 0), i == 0)), IO.InitIo(ioId))
  }

  lemma InitOk(ticks: nat, id: nat, bootstrap: bool)
    ensures Ok(InitCpu(ticks, id, bootstrap))
  {
  }

  lemma PowerOnHolds(n: nat, ticks: nat, ioId: nat)
    ensures Inv(PowerOn(n, ticks, ioId))
  {
    var s := PowerOn(n, ticks, ioId);
    forall c | 0 <= c < n
      ensures Ok(s.cpus[c].apic)
    {
      InitOk(ticks, c, c == 0);
      assert s.cpus[c].apic == InitCpu(ticks, c, c == 0);
    }
  }

  lemma NeverStranded(n: nat, ticks: nat, ioId: nat, steps: seq<Step>)
    requires NoInit(steps)
    ensures Inv(Run(PowerOn(n, ticks, ioId), steps))
  {
    PowerOnHolds(n, ticks, ioId);
    RunKeeps(PowerOn(n, ticks, ioId), steps);
  }

  // ---- in-service vectors are a stack --------------------------------------

  ghost predicate IsEoi(s: System, c: nat, step: Step) {
    step.ApicAccess? && step.cpu == c < |s.cpus| && step.off == 0xb0
    && Io(s.cpus[c].apic, 0xb0, step.write, step.value, step.ticks).Done?
  }

  ghost predicate IsAccept(s: System, c: nat, step: Step) {
    step.AcceptIrq? && step.cpu == c < |s.cpus| && CanAccept(s.cpus[c].apic, step.vector)
  }

  /** What CPU c has acknowledged and not yet ended, oldest first. */
  ghost function Nested(s: System, steps: seq<Step>, c: nat): (st: seq<nat>)
    requires IO.Shaped(s.io)
    decreases |steps|
  {
    if steps == [] then []
    else
      var n := |steps| - 1;
      Nest(Run(s, steps[..n]), Nested(s, steps[..n], c), steps[n], c)
  }

  ghost function Nest(t: System, st: seq<nat>, step: Step, c: nat): seq<nat> {
    if IsAccept(t, c, step) then st + [step.vector]
    else if IsEoi(t, c, step) && st != [] then st[..|st| - 1]
    else st
  }

  ghost predicate StackOf(st: seq<nat>, isr: set<nat>) {
    (forall i, j | 0 <= i < j < |st| :: st[i] / 16 < st[j] / 16) && (forall v :: v in isr <==> v in st)
  }

  lemma TopIsHighest(st: seq<nat>, isr: set<nat>)
    requires StackOf(st, isr) && Vectors(isr)
    ensures Highest(isr) == if st == [] then 0 else st[|st| - 1]
  {
    if st != [] {
      var top := st[|st| - 1];
      assert top in isr;
      forall k | 0 <= k < |st|
        ensures st[k] <= top
      {
        assert k == |st| - 1 || st[k] / 16 < top / 16;
      }
    }
  }

  lemma PushStack(r: Regs, st: seq<nat>, v: nat)
    requires Ok(r) && CanAccept(r, v) && StackOf(st, r.isr)
    ensures StackOf(st + [v], Accepted(r, v).isr)
  {
    AcceptOutranks(r, v);
    hide CanAccept, Advance, Divisor;
    forall i | 0 <= i < |st|
      ensures st[i] / 16 < v / 16
    {
      assert st[i] in r.isr;
    }
  }

  lemma PopStack(r: Regs, st: seq<nat>)
    requires Ok(r) && StackOf(st, r.isr)
    ensures StackOf(if st == [] then [] else st[..|st| - 1], Retired(r).isr)
  {
    TopIsHighest(st, r.isr);
    hide Divisor;
    if st != [] {
      var n := |st| - 1;
      forall v
        ensures v in Retired(r).isr <==> v in st[..n]
      {
        assert st == st[..n] + [st[n]];
        if v in st[..n] {
          var k :| 0 <= k < n && st[k] == v;
        }
      }
    }
  }

  /** No other step touches the in-service vectors of CPU c. */
  lemma IsrFrame(s: System, step: Step, c: nat)
    requires Inv(s) && !(step.Icr? && IsInit(step.command)) && c < |s.cpus|
    requires !IsEoi(s, c, step) && !IsAccept(s, c, step)
    ensures |Next(s, step).cpus| == |s.cpus| && Next(s, step).cpus[c].apic.isr == s.cpus[c].apic.isr
  {
    match step
    case Poll(cpu, ticks) =>
      if cpu < |s.cpus| && s.cpus[cpu].apic.now <= ticks {
        AdvanceKeeps(s.cpus[cpu].apic, ticks);
      }
    case ApicAccess(cpu, off, write, value, ticks) =>
      hide CanAccept, IsAccept;
      if cpu == c && !(off == 0x300 && write) && Io(s.cpus[cpu].apic, off, write, value, ticks).Done? {
        IoKeeps(s.cpus[cpu].apic, off, write, value, ticks);
        hide Io, IcrStep, DeliverStep;
      }
    case Icr(cpu, command, ticks) =>
      if IcrValid(s, cpu, command, ticks) {
        AdvanceKeeps(s.cpus[cpu].apic, ticks);
        hide Advance, CanRoute, Targeted, Divisor, Io, DeliverStep;
      }
    case _ =>
      hide Advance, CanRoute, Io, IcrStep, Divisor;
  }

  /** In every run without INIT the in-service vectors of a CPU are exactly its
      unfinished acknowledgements, in rising priority class: an end of interrupt
      retires the one acknowledged last. */
  lemma {:induction false} NestedIsStack(s: System, steps: seq<Step>, c: nat)
    requires Inv(s) && NoInit(steps) && c < |s.cpus| && s.cpus[c].apic.isr == {}
    ensures |Run(s, steps).cpus| == |s.cpus|
    ensures StackOf(Nested(s, steps, c), Run(s, steps).cpus[c].apic.isr)
    decreases |steps|
  {
    if steps != [] {
      hide *;
      var n := |steps| - 1;
      var t := Run(s, steps[..n]);
      RunStep(s, steps, c);
      NestedIsStack(s, steps[..n], c);
      NestedStep(t, Nested(s, steps[..n], c), steps[n], c);
    }
  }

  lemma RunStep(s: System, steps: seq<Step>, c: nat)
    requires Inv(s) && NoInit(steps) && steps != []
    ensures var n := |steps| - 1;
            && NoInit(steps[..n]) && !(steps[n].Icr? && IsInit(steps[n].command))
            && Inv(Run(s, steps[..n])) && IO.Shaped(Run(s, steps[..n]).io) && IO.Shaped(s.io)
            && Run(s, steps) == Next(Run(s, steps[..n]), steps[n])
            && Nested(s, steps, c) == Nest(Run(s, steps[..n]), Nested(s, steps[..n], c), steps[n], c)
  {
    RunKeeps(s, steps[..|steps| - 1]);
    hide Next, Nest, NoneStranded;
  }

  lemma NestedStep(t: System, st: seq<nat>, step: Step, c: nat)
    requires Inv(t) && !(step.Icr? && IsInit(step.command)) && c < |t.cpus| && StackOf(st, t.cpus[c].apic.isr)
    ensures |Next(t, step).cpus| == |t.cpus|
    ensures StackOf(Nest(t, st, step, c), Next(t, step).cpus[c].apic.isr)
  {
    if IsAccept(t, c, step) {
      NestedAccept(t, st, step, c);
    } else if IsEoi(t, c, step) {
      NestedEoi(t, st, step, c);
    } else {
      IsrFrame(t, step, c);
    }
    hide Next, IsAccept, IsEoi, StackOf;
  }

  lemma NestedAccept(t: System, st: seq<nat>, step: Step, c: nat)
    requires Inv(t) && IsAccept(t, c, step) && StackOf(st, t.cpus[c].apic.isr)
    ensures |Next(t, step).cpus| == |t.cpus| && StackOf(st + [step.vector], Next(t, step).cpus[c].apic.isr)
  {
    PushStack(t.cpus[c].apic, st, step.vector);
    hide CanAccept, StackOf, NoneStranded;
  }

  lemma NestedEoi(t: System, st: seq<nat>, step: Step, c: nat)
    requires Inv(t) && IsEoi(t, c, step) && StackOf(st, t.cpus[c].apic.isr)
    ensures |Next(t, step).cpus| == |t.cpus|
    ensures StackOf(if st == [] then [] else st[..|st| - 1], Next(t, step).cpus[c].apic.isr)
  {
    var a := t.cpus[c].apic;
    IoKeeps(a, 0xb0, step.write, step.value, step.ticks);
    PopStack(a, st);
    hide Io, Advance, StackOf, NoneStranded;
  }

  // ---- ending an interrupt reopens its input --------------------------------

  function EoiWrite(c: nat, ticks: nat): Step { ApicAccess(c, 0xb0, true, 0, ticks) }

  lemma EoiEffect(s: System, c: nat, ticks: nat)
    requires Inv(s) && c < |s.cpus| && s.cpus[c].apic.now <= ticks
    ensures var a, s' := s.cpus[c].apic, Next(s, EoiWrite(c, ticks));
            && |s'.cpus| == |s.cpus|
            && s'.cpus[c].apic.now == ticks
            && s'.cpus[c].apic.isr == Retired(a).isr && s'.cpus[c].apic.tmr == Retired(a).tmr
            && s'.io == if EoiVector(a) != 0 then IO.Eoi(s.io, EoiVector(a)) else s.io
  {
    var a := s.cpus[c].apic;
    AdvanceKeeps(a, ticks);
    hide Advance, Divisor, Ok;
  }

  /** An asserted, unmasked level input with a legal vector. */
  ghost predicate Armed(io: IO.IoRegs, i: nat)
    requires IO.Shaped(io) && i < IO.INPUTS
  {
    var rte := io.redirection[i];
    i in io.asserted && IO.LevelBit(rte) && !IO.MaskBit(rte) && rte % 0x100 >= 16
  }

  /** Ending the interrupt of a waiting input clears its remote-IRR bit, and a
      line that is still asserted routes again at once. */
  lemma EoiReopens(s: System, c: nat, i: nat, ticks: nat)
    requires Inv(s) && c < |s.cpus| && s.cpus[c].apic.now <= ticks && i in s.io.remoteIrr && i < IO.INPUTS
    requires var v := s.io.acceptedVector[i]; v in s.cpus[c].apic.tmr && v == Highest(s.cpus[c].apic.isr)
    ensures var io := Next(s, EoiWrite(c, ticks)).io;
            && i !in io.remoteIrr
            && (Armed(io, i) ==> IO.Route(io, i).RouteTo?)
  {
    EoiEffect(s, c, ticks);
    AcceptedNonzero(s);
    hide Next;
  }

  function EoiWrites(c: nat, ticks: nat, n: nat): seq<Step> {
    if n == 0 then [] else EoiWrites(c, ticks, n - 1) + [EoiWrite(c, ticks)]
  }

  lemma {:induction false} RunFront(s: System, step: Step, steps: seq<Step>)
    requires IO.Shaped(s.io) && IO.Shaped(Next(s, step).io)
    ensures Run(s, [step] + steps) == Run(Next(s, step), steps)
    decreases |steps|
  {
    hide Next;
    var all := [step] + steps;
    var n := |steps|;
    if n == 0 {
      assert all[..0] == [] && all == [step];
    } else {
      assert all[..n] == [step] + steps[..n - 1] && all[n] == steps[n - 1];
      RunFront(s, step, steps[..n - 1]);
    }
  }

  lemma {:induction false} EoiWritesFront(c: nat, ticks: nat, n: nat)
    ensures EoiWrites(c, ticks, n + 1) == [EoiWrite(c, ticks)] + EoiWrites(c, ticks, n)
  {
    if n > 0 {
      EoiWritesFront(c, ticks, n - 1);
    }
  }

  lemma DrainFront(s: System, c: nat, n: nat, ticks: nat)
    requires Inv(s)
    ensures IO.Shaped(Next(s, EoiWrite(c, ticks)).io)
    ensures Run(s, EoiWrites(c, ticks, n + 1)) == Run(Next(s, EoiWrite(c, ticks)), EoiWrites(c, ticks, n))
  {
    NextKeeps(s, EoiWrite(c, ticks));
    hide Next;
    EoiWritesFront(c, ticks, n);
    RunFront(s, EoiWrite(c, ticks), EoiWrites(c, ticks, n));
  }

  /** However deep in the stack the vector of a waiting input sits, that many ends
      of interrupt reopen the input. */
  lemma {:induction false} DrainReopens(s: System, c: nat, st: seq<nat>, k: nat, i: nat, ticks: nat)
    requires Waiting(s, c, st, k, i, ticks)
    ensures i !in Run(s, EoiWrites(c, ticks, |st| - k)).io.remoteIrr
    decreases |st|
  {
    hide *;
    WaitingParts(s, c, st, k, i, ticks);
    var n := |st| - 1;
    DrainFront(s, c, n - k, ticks);
    if k == n {
      DrainDone(s, c, st, i, ticks);
    } else {
      DrainStep(s, c, st, k, i, ticks);
      DrainReopens(Next(s, EoiWrite(c, ticks)), c, st[..n], k, i, ticks);
    }
  }

  /** Input i waits for the vector at depth k of the stack of CPU c. */
  ghost predicate Waiting(s: System, c: nat, st: seq<nat>, k: nat, i: nat, ticks: nat) {
    && Inv(s) && c < |s.cpus| && s.cpus[c].apic.now <= ticks && StackOf(st, s.cpus[c].apic.isr)
    && i in s.io.remoteIrr && i < IO.INPUTS && k < |st|
    && s.io.acceptedVector[i] == st[k] && st[k] in s.cpus[c].apic.tmr
  }

  lemma WaitingParts(s: System, c: nat, st: seq<nat>, k: nat, i: nat, ticks: nat)
    requires Waiting(s, c, st, k, i, ticks)
    ensures Inv(s) && IO.Shaped(s.io) && k < |st|
  {
  }

  lemma DrainStep(s: System, c: nat, st: seq<nat>, k: nat, i: nat, ticks: nat)
    requires Waiting(s, c, st, k, i, ticks) && k < |st| - 1
    ensures Waiting(Next(s, EoiWrite(c, ticks)), c, st[..|st| - 1], k, i, ticks)
  {
    var a, n := s.cpus[c].apic, |st| - 1;
    EoiEffect(s, c, ticks);
    NextKeeps(s, EoiWrite(c, ticks));
    TopIsHighest(st, a.isr);
    PopStack(a, st);
    assert st[k] / 16 < st[n] / 16;
    hide Next, StackOf, NoneStranded;
  }

  lemma DrainDone(s: System, c: nat, st: seq<nat>, i: nat, ticks: nat)
    requires |st| > 0 && Waiting(s, c, st, |st| - 1, i, ticks)
    ensures IO.Shaped(Next(s, EoiWrite(c, ticks)).io)
    ensures i !in Run(Next(s, EoiWrite(c, ticks)), EoiWrites(c, ticks, 0)).io.remoteIrr
  {
    TopIsHighest(st, s.cpus[c].apic.isr);
    EoiReopens(s, c, i, ticks);
    NextKeeps(s, EoiWrite(c, ticks));
    hide Next, NoneStranded;
  }

  // ---- INIT ----------------------------------------------------------------

  /** An effective INIT keeps every input answered for exactly when each waiting
      input has an owner among the CPUs it does not reset. */
  lemma InitKeepsIff(s: System, sender: nat, command: nat, ticks: nat)
    requires Inv(s) && IsInit(command) && IcrValid(s, sender, command, ticks)
    ensures NoneStranded(IcrStep(s, sender, command, ticks))
       <==> forall i | i in s.io.remoteIrr ::
              exists c :: HeldBy(s, s.io.acceptedVector[i], c) && !Targeted(s, sender, command, c)
  {
    var s' := IcrStep(s, sender, command, ticks);
    forall c: nat, v: nat
      ensures HeldBy(s', v, c) <==> HeldBy(s, v, c) && !Targeted(s, sender, command, c)
    {
      if c < |s.cpus| {
        InitCpuHolds(s, sender, command, ticks, c, v);
      }
    }
    hide IcrStep, IcrValid, Targeted, IsInit;
    assert forall i | i in s.io.remoteIrr :: i < IO.INPUTS;
  }

  lemma InitCpuHolds(s: System, sender: nat, command: nat, ticks: nat, c: nat, v: nat)
    requires Inv(s) && IsInit(command) && IcrValid(s, sender, command, ticks) && c < |s.cpus|
    ensures |IcrStep(s, sender, command, ticks).cpus| == |s.cpus|
    ensures Holds(IcrStep(s, sender, command, ticks).cpus[c].apic, v)
       <==> Holds(s.cpus[c].apic, v) && !Targeted(s, sender, command, c)
  {
    var a := s.cpus[sender].apic;
    AdvanceKeeps(a, ticks);
    AdvanceLevel(a, ticks);
    hide Advance, Targeted, OnlyBits, Divisor;
  }

  lemma AdvanceLevel(r: Regs, t: nat)
    requires Ok(r) && r.now <= t
    ensures Advance(r, t).irrLevel == r.irrLevel
  {
    hide Divisor;
  }

  lemma StrandsValid(s: System, a: Regs, ticks: nat)
    requires s.cpus == [Cpu(a, true)] && a.id == 0 && a.now <= ticks
    ensures IcrValid(s, 0, 0x4_4500, ticks) && IsInit(0x4_4500) && Targeted(s, 0, 0x4_4500, 0)
  {
    assert OnlyBits(0x4_4500, 0x000c_cfff);
    hide OnlyBits, Destination;
  }

  lemma StrandsAt(s: System, a: Regs, ticks: nat)
    requires Inv(s) && s.cpus == [Cpu(a, true)] && s.io.remoteIrr == {1} && a.id == 0 && a.now <= ticks
    ensures IcrValid(s, 0, 0x4_4500, ticks) && !NoneStranded(IcrStep(s, 0, 0x4_4500, ticks))
  {
    StrandsValid(s, a, ticks);
    hide IcrValid, IsInit, Targeted, IcrStep, Holds;
    InitKeepsIff(s, 0, 0x4_4500, ticks);
    assert 1 in s.io.remoteIrr;
  }

  /** Enable the local APIC, program input 1 as vector 0x41 by level, assert it, deliver it. */
  function Setup(ticks: nat): seq<Step> {
    [ApicAccess(0, 0xf0, true, 0x1ff, ticks), IoApicAccess(0, true, 0x12), IoApicAccess(0x10, true, 0x8041),
     SetIrq(1, true), Deliver(1)]
  }

  lemma SetupApic(ticks: nat)
    ensures Io(InitCpu(ticks, 0, true), 0xf0, true, 0x1ff, ticks) == Done(InitCpu(ticks, 0, true).(svr := 0x1ff), 0x1ff)
  {
    var r := InitCpu(ticks, 0, true);
    InitOk(ticks, 0, true);
    AdvanceNothing(r);
    assert OnlyBits(0x1ff, 0x3ff);
  }

  const ENTRIES: seq<nat> := seq(IO.INPUTS, i => if i == 1 then 0x8041 else 0x1_0000)

  lemma SetupEntry(s: IO.IoRegs)
    requires IO.Shaped(s) && s.redirection == IO.InitIo(0).redirection
    ensures IO.Entry(s, 1, false, true, 0x8041) == IO.IoDone(s.(redirection := ENTRIES), 0x8041)
  {
    hide IO.Shaped, IO.LowHalf, IO.LowAllowed, IO.Readback;
    IO.LevelLow(0x8041);
    assert s.redirection[1] / IO.HALF == 0;
    assert s.redirection[1 := 0x8041] == ENTRIES;
  }

  lemma SetupIo()
    ensures IO.Access(IO.InitIo(0), 0, true, 0x12) == IO.IoDone(IO.InitIo(0).(selector := 0x12), 0x12)
    ensures IO.Access(IO.InitIo(0).(selector := 0x12), 0x10, true, 0x8041)
         == IO.IoDone(IO.InitIo(0).(selector := 0x12, redirection := ENTRIES), 0x8041)
  {
    SetupEntry(IO.InitIo(0).(selector := 0x12));
    hide IO.Entry, IO.InitIo;
  }

  lemma SetupDeliver(a: Regs, io: IO.IoRegs)
    requires io == IO.InitIo(0).(selector := 0x12, redirection := ENTRIES) && a.svr == 0x1ff && a.id == 0
    ensures var s := System([Cpu(a, true)], IO.SetIrq(io, 1, true));
            var t := DeliverStep(s, 1);
            && |t.cpus| == 1 && t.cpus[0] == Cpu(Routed(a, 0x41, true), true) && t.io.remoteIrr == {1}
  {
    var s := System([Cpu(a, true)], IO.SetIrq(io, 1, true));
    var r := IO.Route(s.io, 1);
    assert r == IO.RouteTo(0x41, 0, false, true);
    assert Takes(s.cpus[0], r);
  }

  lemma SetupSteps(ticks: nat)
    ensures var e, p1 := Setup(ticks), System([Cpu(InitCpu(ticks, 0, true).(svr := 0x1ff), true)], IO.InitIo(0));
            var p2 := p1.(io := p1.io.(selector := 0x12));
            var p3 := p2.(io := p2.io.(redirection := ENTRIES));
            && Next(PowerOn(1, ticks, 0), e[0]) == p1 && Next(p1, e[1]) == p2 && Next(p2, e[2]) == p3
            && Next(p3, e[3]) == p3.(io := IO.SetIrq(p3.io, 1, true))
  {
    SetupApic(ticks);
    SetupIo();
    hide Io, InitCpu, IO.Access, IO.SetIrq;
  }

  lemma SetupRun(ticks: nat)
    ensures var t := Run(PowerOn(1, ticks, 0), Setup(ticks));
            && Inv(t) && |t.cpus| == 1 && t.cpus[0].running && t.io.remoteIrr == {1}
            && t.cpus[0].apic.id == 0 && t.cpus[0].apic.now == ticks
  {
    var p, e := PowerOn(1, ticks, 0), Setup(ticks);
    NeverStranded(1, ticks, 0, e);
    var a := InitCpu(ticks, 0, true).(svr := 0x1ff);
    var p1 := System([Cpu(a, true)], IO.InitIo(0));
    var p2 := p1.(io := p1.io.(selector := 0x12));
    var p3 := p2.(io := p2.io.(redirection := ENTRIES));
    var p4 := p3.(io := IO.SetIrq(p3.io, 1, true));
    SetupSteps(ticks);
    SetupDeliver(a, p3.io);
    assert Next(p4, e[4]) == DeliverStep(p4, 1);
    hide Next, Inv, Run, InitCpu, DeliverStep;
    assert e == [e[0]] + ([e[1]] + ([e[2]] + ([e[3]] + ([e[4]] + []))));
    RunFront(p, e[0], [e[1]] + ([e[2]] + ([e[3]] + ([e[4]] + []))));
    RunFront(p1, e[1], [e[2]] + ([e[3]] + ([e[4]] + [])));
    RunFront(p2, e[2], [e[3]] + ([e[4]] + []));
    RunFront(p3, e[3], [e[4]] + []);
    RunFront(p4, e[4], []);
  }

  /** From power-on, a single processor that then resets itself strands the line it took. */
  lemma InitStrands(ticks: nat)
    ensures var t := Run(PowerOn(1, ticks, 0), Setup(ticks));
            Inv(t) && IcrValid(t, 0, 0x4_4500, ticks) && !NoneStranded(Next(t, Icr(0, 0x4_4500, ticks)))
  {
    SetupRun(ticks);
    var t := Run(PowerOn(1, ticks, 0), Setup(ticks));
    hide Run, Setup, Inv;
    assert t.cpus == [Cpu(t.cpus[0].apic, true)];
    StrandsAt(t, t.cpus[0].apic, ticks);
  }
}
