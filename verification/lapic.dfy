/** The virtual local APIC: timer, request/service registers and priorities. */
module Lapic {
  import opened Modular

  /** Register file of one CPU.  The 256-bit request, service, trigger and level
      maps are sets of vectors. */
  datatype Regs = Regs(
    svr: nat, tpr: nat, lvtTimer: nat, initial: nat, divide: nat, lint0: nat, lint1: nat,
    ldr: nat, dfr: nat, icrLow: nat, icrHigh: nat, lvtThermal: nat, lvtPerf: nat, lvtError: nat,
    now: nat, phase: nat, counter: nat,
    irr: set<nat>, isr: set<nat>, irrLevel: set<nat>, tmr: set<nat>,
    invalidVector: bool, id: nat, bootstrap: bool)

  const INVALID_VECTOR := 256

  function InitCpu(ticks: nat, id: nat, bootstrap: bool): Regs {
    Regs(0xff, 0, 0x1_0000, 0, 0, 0x1_0000, 0x1_0000, 0, 0xffff_ffff, 0, 0, 0x1_0000, 0x1_0000, 0x1_0000,
         ticks, 0, 0, {}, {}, {}, {}, false, id, bootstrap)
  }

  predicate Enabled(r: Regs) { r.svr / 0x100 % 2 == 1 }
  predicate Masked(r: Regs) { r.lvtTimer / 0x1_0000 % 2 == 1 }
  predicate Periodic(r: Regs) { r.lvtTimer / 0x2_0000 % 2 == 1 }

  /** Divider from bits 0, 1 and 3 of the divide register. */
  function Divisor(r: Regs): (d: nat)
    ensures d > 0 && d in {1, 2, 4, 8, 16, 32, 64, 128}
  {
    var encoding := r.divide % 4 + r.divide / 8 % 2 * 4;
    [1, 2, 4, 8, 16, 32, 64, 128][(encoding + 1) % 8]
  }

  // ---- the timer ----------------------------------------------------------

  /** Raises the timer vector, or latches the error for an illegal one. */
  function Fire(r: Regs): Regs {
    if Enabled(r) && !Masked(r) then
      var vector := r.lvtTimer % 0x100;
      if vector >= 16 then r.(irr := r.irr + {vector}) else r.(invalidVector := true)
    else r
  }

  /** The counter after `elapsed` periods of the divided clock. */
  function Count(r: Regs, elapsed: nat): Regs {
    if r.counter == 0 then r
    else if elapsed < r.counter then r.(counter := r.counter - elapsed)
    else
      var over := elapsed - r.counter;
      Fire(r.(counter := if Periodic(r) && r.initial != 0 then r.initial - over % r.initial else 0))
  }

  function Advance(r: Regs, ticks: nat): Regs
    requires r.now <= ticks
  {
    var delta, div := ticks - r.now, Divisor(r);
    var fraction := delta % div + r.phase;
    var elapsed := delta / div + fraction / div;
    Count(r.(phase := fraction % div, now := ticks), elapsed)
  }

  /** One tick of the bus clock, as the hardware would take it. */
  function TickOnce(r: Regs): Regs {
    var s := r.(now := r.now + 1);
    if r.phase + 1 < Divisor(r) then s.(phase := r.phase + 1)
    else
      var z := s.(phase := 0);
      if r.counter == 0 then z
      else if r.counter > 1 then z.(counter := r.counter - 1)
      else Fire(z.(counter := if Periodic(r) then r.initial else 0))
  }

  function Ticks(r: Regs, n: nat): Regs
  {
    if n == 0 then r else TickOnce(Ticks(r, n - 1))
  }

  /** What every operation keeps about the timer. */
  predicate TimerOk(r: Regs) {
    r.phase < Divisor(r) && r.counter <= r.initial
  }

  lemma SplitPeriods(d: nat, ph: nat, div: nat)
    requires div > 0
    ensures d / div + (d % div + ph) / div == (d + ph) / div && (d % div + ph) % div == (d + ph) % div
  {
    var q, s := d / div, d % div;
    assert d + ph == (s + ph) + q * div;
    DivShift(s + ph, q, div);
    CongIntro(d + ph, s + ph, q, div);
  }

  lemma AddPeriods(x: nat, y: nat, div: nat)
    requires div > 0
    ensures x / div + (y + x % div) / div == (x + y) / div && (y + x % div) % div == (x + y) % div
  {
    SplitPeriods(x, y, div);
  }

  /** Counting in two steps is counting once. */
  lemma CountCompose(r: Regs, e1: nat, e2: nat)
    ensures Count(Count(r, e1), e2) == Count(r, e1 + e2)
  {
    hide Fire;
    if r.counter != 0 && e1 >= r.counter {
      var x, i := e1 - r.counter, r.initial;
      if Periodic(r) && i != 0 {
        Reload(x, e2, i);
        var b, c := r.(counter := i - x % i), i - (x + e2) % i;
        FireFrame(b, c);
      } else {
        FireFrame(r.(counter := 0), 0);
      }
    }
  }

  /** Firing leaves the counter alone, and firing twice is firing once. */
  lemma FireFrame(r: Regs, c: nat)
    ensures Fire(r).counter == r.counter && Fire(r).initial == r.initial && Fire(r).lvtTimer == r.lvtTimer
    ensures Fire(r).(counter := c) == Fire(r.(counter := c)) == Fire(Fire(r).(counter := c))
  {
  }

  /** A reloading counter shows the same value however the periods are grouped. */
  lemma Reload(x: nat, y: nat, i: nat)
    requires i > 0
    ensures var c := i - x % i;
            (y < c ==> c - y == i - (x + y) % i)
            && (y >= c ==> (y - c) % i == (x + y) % i)
  {
    var q, s := x / i, x % i;
    assert x == q * i + s;
    if y < i - s {
      DivModUnique(x + y, q, s + y, i);
    } else {
      assert x + y == (y - (i - s)) + (q + 1) * i;
      CongIntro(x + y, y - (i - s), q + 1, i);
    }
  }

  /** Clock position and count do not interfere. */
  lemma CountFrame(r: Regs, e: nat, p: nat, t: nat)
    ensures Count(r.(phase := p, now := t), e) == Count(r, e).(phase := p, now := t)
    ensures Count(r, e).divide == r.divide
  {
    hide Divisor;
  }

  /** Advance in terms of x, the bus ticks since the last prescaler wrap. */
  lemma AdvanceForm(r: Regs, t: nat)
    requires r.now <= t
    ensures var x := t - r.now + r.phase; var div := Divisor(r);
            Advance(r, t) == Count(r, x / div).(phase := x % div, now := t)
  {
    hide Count, Divisor;
    SplitPeriods(t - r.now, r.phase, Divisor(r));
    CountFrame(r, (t - r.now + r.phase) / Divisor(r), (t - r.now + r.phase) % Divisor(r), t);
  }

  /** Polling is invisible: looking at t1 changes nothing about t2. */
  lemma AdvanceCompose(r: Regs, t1: nat, t2: nat)
    requires r.now <= t1 <= t2
    ensures Advance(Advance(r, t1), t2) == Advance(r, t2)
  {
    hide Advance, Count, Divisor;
    var div := Divisor(r);
    var x, y := t1 - r.now + r.phase, t2 - t1;
    AdvanceForm(r, t1);
    var c := Count(r, x / div);
    var a := Advance(r, t1);
    CountFrame(r, x / div, x % div, t1);
    SameDivisor(a, r);
    AdvanceForm(a, t2);
    CountFrame(c, (y + x % div) / div, x % div, t1);
    AdvanceForm(r, t2);
    AddPeriods(x, y, div);
    CountCompose(r, x / div, (y + x % div) / div);
  }

  lemma SameDivisor(a: Regs, b: Regs)
    requires a.divide == b.divide
    ensures Divisor(a) == Divisor(b)
  {
  }

  // ---- the fast form is the tick-by-tick form -----------------------------

  lemma CountZero(r: Regs)
    ensures Count(r, 0) == r
  {
  }

  lemma CountOne(r: Regs)
    requires r.counter <= r.initial
    ensures Count(r, 1) == if r.counter == 0 then r
                           else if r.counter > 1 then r.(counter := r.counter - 1)
                           else Fire(r.(counter := if Periodic(r) then r.initial else 0))
  {
    hide Fire, Divisor;
    if r.counter == 1 {
      DivModUnique(0, 0, 0, r.initial);
    }
  }

  lemma OneTick(r: Regs)
    requires TimerOk(r)
    ensures Advance(r, r.now + 1) == TickOnce(r)
  {
    hide Advance, Count, Fire, Divisor;
    AdvanceForm(r, r.now + 1);
    var div := Divisor(r);
    if r.phase + 1 < div {
      DivModUnique(r.phase + 1, 0, r.phase + 1, div);
      CountZero(r);
    } else {
      DivModUnique(r.phase + 1, 1, 0, div);
      CountFrame(r, 1, 0, r.now + 1);
      CountOne(r.(phase := 0, now := r.now + 1));
    }
  }

  lemma TickKeeps(r: Regs)
    requires TimerOk(r)
    ensures TimerOk(TickOnce(r)) && TickOnce(r).now == r.now + 1
  {
    SameDivisor(r, TickOnce(r));
  }

  lemma {:induction false} TicksKeep(r: Regs, n: nat)
    requires TimerOk(r)
    ensures TimerOk(Ticks(r, n)) && Ticks(r, n).now == r.now + n
  {
    if n > 0 {
      TicksKeep(r, n - 1);
      TickKeeps(Ticks(r, n - 1));
    }
  }

  /** For every divider, mode and gap, the division-based advance ends where the
      hardware's single ticks end. */
  lemma {:induction false} AdvanceIsTicks(r: Regs, n: nat)
    requires TimerOk(r)
    ensures Advance(r, r.now + n) == Ticks(r, n)
  {
    hide Advance, TickOnce, Divisor;
    if n == 0 {
      AdvanceNothing(r);
    } else {
      AdvanceIsTicks(r, n - 1);
      TicksKeep(r, n - 1);
      OneTick(Ticks(r, n - 1));
      AdvanceCompose(r, r.now + n - 1, r.now + n);
    }
  }

  lemma AdvanceNothing(r: Regs)
    requires TimerOk(r)
    ensures Advance(r, r.now) == r
  {
    AdvanceForm(r, r.now);
    DivModUnique(r.phase, 0, r.phase, Divisor(r));
  }

  // ---- requests and priorities --------------------------------------------

  /** The highest vector set at or below `top`, zero when there is none. */
  function HighestFrom(bits: set<nat>, top: nat): (h: nat)
    ensures h != 0 ==> 16 <= h <= top && h in bits
    ensures forall v | 16 <= v <= top && v in bits :: v <= h
  {
    if top < 16 then 0 else if top in bits then top else HighestFrom(bits, top - 1)
  }

  function Highest(bits: set<nat>): (h: nat)
    ensures h != 0 ==> 16 <= h < 256 && h in bits
    ensures forall v | 16 <= v < 256 && v in bits :: v <= h
  {
    HighestFrom(bits, 255)
  }

  /** Processor priority: the class the guest set or the class in service. */
  function Priority(r: Regs): nat {
    var inService := Highest(r.isr);
    if r.tpr / 16 >= inService / 16 then r.tpr else inService / 16 * 16
  }

  function PendingVector(r: Regs): nat {
    if r.invalidVector then INVALID_VECTOR
    else
      var v := Highest(r.irr);
      if Enabled(r) && v / 16 > Priority(r) / 16 then v else 0
  }

  /** Register file after a successful acknowledge of `vector`. */
  function Accepted(r: Regs, vector: nat): Regs {
    r.(irr := r.irr - {vector}, isr := r.isr + {vector},
       tmr := if vector in r.irrLevel then r.tmr + {vector} else r.tmr - {vector},
       irrLevel := r.irrLevel - {vector})
  }

  predicate CanAccept(r: Regs, vector: nat) {
    0 < vector < 256 && vector == PendingVector(Advance(r, r.now))
  }

  predicate Overlap(a: nat, b: nat)
    requires a < 256 && b < 256
  {
    (a as bv8) & (b as bv8) != 0
  }

  predicate Destination(r: Regs, destination: nat, logical: bool) {
    var local := r.ldr / 0x100_0000 % 0x100;
    destination <= 255
    && (destination == 255
        || if logical then
             if r.dfr == 0xffff_ffff then Overlap(destination, local)
             else destination / 16 == local / 16 && Overlap(destination % 16, local % 16)
           else destination == r.id)
  }

  predicate CanRoute(r: Regs, vector: nat, destination: nat, logical: bool) {
    16 <= vector <= 255 && Enabled(r) && Destination(r, destination, logical)
  }

  function Routed(r: Regs, vector: nat, level: bool): Regs {
    r.(irr := r.irr + {vector}, irrLevel := if level then r.irrLevel + {vector} else r.irrLevel)
  }

  function EoiVector(r: Regs): nat {
    var v := Highest(r.isr);
    if v in r.tmr then v else 0
  }

  function Retired(r: Regs): Regs {
    var v := Highest(r.isr);
    if v == 0 then r else r.(isr := r.isr - {v}, tmr := r.tmr - {v})
  }

  // ---- register access ----------------------------------------------------

  datatype Access = Refused | Done(regs: Regs, value: nat)

  /** A read, or a write that must stay inside the implemented bits. */
  function Plain(next: Regs, write: bool, value: nat, current: nat, fits: bool, updated: Regs): Access {
    if !write then Done(next, current) else if fits then Done(updated, value) else Refused
  }

  predicate OnlyBits(value: nat, mask: bv32) {
    value < 0x1_0000_0000 && (value as bv32) & !mask == 0
  }

  /** One bit per 32-vector word, as a guest reads the 256-bit maps. */
  function Word(bits: set<nat>, w: nat, k: nat): (n: nat)
    requires k <= 32
    decreases 32 - k
  {
    if k == 32 then 0 else (if 32 * w + k in bits then 1 else 0) + 2 * Word(bits, w, k + 1)
  }

  /** aos_x86_apic_io: everything happens on a copy that is advanced to `ticks`;
      a refused access changes nothing. */
  function Io(r: Regs, off: nat, write: bool, value: nat, ticks: nat): Access {
    if ticks < r.now then Refused
    else
      var next := Advance(r, ticks);
      if off < 0x320 then ControlIo(next, r.id, off, write, value)
      else if off < 0x380 then VectorIo(next, off, write, value)
      else TimerIo(next, off, write, value)
  }

  /** Identification, priorities, end of interrupt, commands and the vector maps. */
  function ControlIo(next: Regs, id: nat, off: nat, write: bool, value: nat): Access {
    match off
    case 0x20 => if write then Refused else Done(next, id * 0x100_0000)
    case 0x30 => if write then Refused else Done(next, 0x0005_0014)
    case 0x80 => Plain(next, write, value, next.tpr, OnlyBits(value, 0xff), next.(tpr := value))
    case 0xd0 => Plain(next, write, value, next.ldr, OnlyBits(value, 0xff00_0000), next.(ldr := value))
    case 0xe0 =>
      if !write then Done(next, next.dfr)
      else if value / 0x1000_0000 != 0 && value / 0x1000_0000 != 15 then Refused
      else Done(next.(dfr := value / 0x1000_0000 * 0x1000_0000 + 0xfff_ffff), value)
    case 0xa0 => if write then Refused else Done(next, Priority(next))
    case 0xb0 => if !write || value != 0 then Refused else Done(Retired(next), value)
    case 0xf0 => Plain(next, write, value, next.svr, OnlyBits(value, 0x3ff), next.(svr := value))
    case 0x280 => if write && value != 0 then Refused else Done(next, 0)
    case 0x300 => CommandIo(next, write, value)
    case 0x310 => Plain(next, write, value, next.icrHigh, OnlyBits(value, 0xff00_0000), next.(icrHigh := value))
    case _ =>
      if write || off % 16 != 0 then Refused
      else if 0x100 <= off <= 0x170 then Done(next, Word(next.isr, (off - 0x100) / 16, 0))
      else if 0x180 <= off <= 0x1f0 then Done(next, Word(next.tmr, (off - 0x180) / 16, 0))
      else if 0x200 <= off <= 0x270 then Done(next, Word(next.irr, (off - 0x200) / 16, 0))
      else Refused
  }

  function CommandIo(next: Regs, write: bool, value: nat): Access {
    if !write then Done(next, next.icrLow)
    else if !OnlyBits(value, 0x000c_48ff) || value % 0x100 < 16 then Refused
    else
      var shortcut, dest, vector := value / 0x4_0000 % 4, next.icrHigh / 0x100_0000, value % 0x100;
      var target := if shortcut != 0 then next.id else dest;
      var logical := shortcut == 0 && value / 0x800 % 2 == 1;
      var sent := if shortcut != 3 && CanRoute(next, vector, target, logical)
                  then Routed(next, vector, false) else next;
      Done(sent.(icrLow := value), value)
  }

  /** The local vector table. */
  function VectorIo(next: Regs, off: nat, write: bool, value: nat): Access {
    match off
    case 0x320 => Plain(next, write, value, next.lvtTimer, OnlyBits(value, 0x3_00ff), next.(lvtTimer := value))
    case 0x330 => Plain(next, write, value, next.lvtThermal, OnlyBits(value, 0x1_07ff), next.(lvtThermal := value))
    case 0x340 => Plain(next, write, value, next.lvtPerf, OnlyBits(value, 0x1_07ff), next.(lvtPerf := value))
    case 0x370 => Plain(next, write, value, next.lvtError, OnlyBits(value, 0x1_00ff), next.(lvtError := value))
    case 0x350 => Plain(next, write, value, next.lint0, OnlyBits(value, 0x1_a7ff), next.(lint0 := value))
    case 0x360 => Plain(next, write, value, next.lint1, OnlyBits(value, 0x1_a7ff), next.(lint1 := value))
    case _ => Refused
  }

  function TimerIo(next: Regs, off: nat, write: bool, value: nat): Access {
    match off
    case 0x380 => Plain(next, write, value, next.initial, true, next.(initial := value, counter := value, phase := 0))
    case 0x390 => if write then Refused else Done(next, next.counter)
    case 0x3e0 =>
      Plain(next, write, value, next.divide, OnlyBits(value, 0xb),
            next.(divide := value, phase := if value != next.divide then 0 else next.phase))
    case _ => Refused
  }

  // ---- what every operation keeps -----------------------------------------

  ghost predicate Vectors(s: set<nat>) {
    forall v | v in s :: 16 <= v < 256
  }

  /** In-service vectors, at most one per priority class. */
  ghost predicate Stacked(isr: set<nat>) {
    forall u, v | u in isr && v in isr && u / 16 == v / 16 :: u == v
  }

  ghost predicate Ok(r: Regs) {
    TimerOk(r) && Vectors(r.irr) && Vectors(r.isr) && r.irrLevel <= r.irr && r.tmr <= r.isr && Stacked(r.isr)
  }

  /** This CPU will signal an end of interrupt for level vector v. */
  ghost predicate Holds(r: Regs, v: nat) {
    (v in r.irr && v in r.irrLevel) || (v in r.isr && v in r.tmr)
  }

  /** r' serves every level vector that r serves, except perhaps `gone`. */
  ghost predicate Keeps(r: Regs, r': Regs, gone: nat) {
    Ok(r') && forall v | Holds(r, v) && v != gone :: Holds(r', v)
  }

  lemma CountKeeps(r: Regs, e: nat)
    requires Ok(r)
    ensures Keeps(r, Count(r, e), 0) && Count(r, e).isr == r.isr && Count(r, e).tmr == r.tmr
  {
    hide Divisor;
    SameDivisor(r, Count(r, e));
    if r.counter != 0 && e >= r.counter && Periodic(r) && r.initial != 0 {
      assert 0 <= (e - r.counter) % r.initial < r.initial;
    }
  }

  lemma AdvanceKeeps(r: Regs, t: nat)
    requires Ok(r) && r.now <= t
    ensures Keeps(r, Advance(r, t), 0) && Advance(r, t).isr == r.isr && Advance(r, t).tmr == r.tmr
    ensures Advance(r, t).now == t
  {
    hide Advance, Count, Divisor;
    AdvanceForm(r, t);
    var x := t - r.now + r.phase;
    CountKeeps(r, x / Divisor(r));
    SameDivisor(Count(r, x / Divisor(r)), Advance(r, t));
    CountFrame(r, x / Divisor(r), 0, 0);
    SameDivisor(Count(r, x / Divisor(r)), r);
  }

  /** An acknowledged vector outranks everything in service. */
  lemma AcceptOutranks(r: Regs, v: nat)
    requires Ok(r) && CanAccept(r, v)
    ensures Advance(r, r.now) == r && v in r.irr && forall u | u in r.isr :: u / 16 < v / 16
  {
    AdvanceNothing(r);
    hide Advance, Divisor;
    var h := Highest(r.isr);
    assert v == Highest(r.irr) && v / 16 > Priority(r) / 16;
    forall u | u in r.isr
      ensures u / 16 < v / 16
    {
      assert u <= h;
    }
  }

  lemma AcceptKeeps(r: Regs, v: nat)
    requires Ok(r) && CanAccept(r, v)
    ensures Keeps(r, Accepted(r, v), 0)
  {
    AcceptOutranks(r, v);
    SameDivisor(r, Accepted(r, v));
    hide Advance, Divisor, PendingVector;
  }

  lemma RouteKeeps(r: Regs, v: nat, level: bool)
    requires Ok(r) && 16 <= v < 256
    ensures Keeps(r, Routed(r, v, level), 0) && (level ==> Holds(Routed(r, v, level), v))
    ensures Routed(r, v, level).isr == r.isr
  {
    SameDivisor(r, Routed(r, v, level));
    hide Divisor;
  }

  lemma RetireKeeps(r: Regs)
    requires Ok(r)
    ensures Keeps(r, Retired(r), EoiVector(r))
  {
    SameDivisor(r, Retired(r));
    hide Divisor;
  }

  ghost predicate SameMaps(a: Regs, b: Regs) {
    a.irr == b.irr && a.isr == b.isr && a.irrLevel == b.irrLevel && a.tmr == b.tmr
  }

  /** A register access changes the maps only by ending an interrupt or sending one. */
  lemma IoMaps(r: Regs, off: nat, write: bool, value: nat, ticks: nat)
    requires r.now <= ticks && Io(r, off, write, value, ticks).Done?
    ensures var next, out := Advance(r, ticks), Io(r, off, write, value, ticks).regs;
            && (off == 0xb0 ==> out == Retired(next))
            && (off != 0xb0 && off != 0x300 ==> SameMaps(next, out))
            && (off == 0x300 ==>
                  SameMaps(next, out) || (exists v | 16 <= v < 256 :: SameMaps(Routed(next, v, false), out)))
  {
    hide Advance, SameMaps, ControlIo, VectorIo, TimerIo, CommandIo, Routed, Retired;
    var next := Advance(r, ticks);
    if off == 0x300 {
      ControlParts(next, r.id, write, value);
      CommandMaps(next, write, value);
    } else if off == 0xb0 {
      ControlParts(next, r.id, write, value);
    } else if off < 0x320 {
      ControlSame(next, r.id, off, write, value);
      MapsOf(next, Io(r, off, write, value, ticks).regs);
    } else if off < 0x380 {
      VectorSame(next, off, write, value);
      MapsOf(next, Io(r, off, write, value, ticks).regs);
    } else {
      TimerMaps(next, off, write, value);
    }
  }

  /** What neither an end of interrupt nor a command changes, timer and maps. */
  ghost predicate Same(a: Regs, b: Regs) {
    && a.irr == b.irr && a.isr == b.isr && a.irrLevel == b.irrLevel && a.tmr == b.tmr
    && a.phase == b.phase && a.counter == b.counter && a.initial == b.initial && a.divide == b.divide
  }

  lemma MapsOf(a: Regs, b: Regs)
    requires Same(a, b)
    ensures SameMaps(a, b)
  {
  }

  lemma ControlParts(next: Regs, id: nat, write: bool, value: nat)
    ensures ControlIo(next, id, 0x300, write, value) == CommandIo(next, write, value)
    ensures var a := ControlIo(next, id, 0xb0, write, value);
            a == if !write || value != 0 then Refused else Done(Retired(next), value)
  {
    hide CommandIo, Retired;
  }

  lemma CommandMaps(next: Regs, write: bool, value: nat)
    requires CommandIo(next, write, value).Done?
    ensures var out := CommandIo(next, write, value).regs;
            SameMaps(next, out) || (exists v | 16 <= v < 256 :: SameMaps(Routed(next, v, false), out))
  {
    hide CanRoute, OnlyBits, Routed;
    var out := CommandIo(next, write, value).regs;
    assert SameMaps(next, out) || SameMaps(Routed(next, value % 0x100, false), out);
  }

  lemma ControlSame(next: Regs, id: nat, off: nat, write: bool, value: nat)
    requires ControlIo(next, id, off, write, value).Done? && off != 0xb0 && off != 0x300
    ensures Same(next, ControlIo(next, id, off, write, value).regs)
  {
    hide CommandIo, Retired, Priority, Word, OnlyBits;
  }

  lemma VectorSame(next: Regs, off: nat, write: bool, value: nat)
    requires VectorIo(next, off, write, value).Done?
    ensures Same(next, VectorIo(next, off, write, value).regs)
  {
    hide OnlyBits;
  }

  lemma TimerMaps(next: Regs, off: nat, write: bool, value: nat)
    requires TimerIo(next, off, write, value).Done?
    ensures var out := TimerIo(next, off, write, value).regs;
            && SameMaps(next, out)
            && (out.counter == out.initial || (out.counter == next.counter && out.initial == next.initial))
            && (out.phase == 0 || (out.phase == next.phase && out.divide == next.divide))
  {
    hide OnlyBits;
  }

  /** An end of interrupt or a command leaves the timer alone. */
  lemma MapsTimer(next: Regs, write: bool, value: nat)
    ensures var e, c := Retired(next), CommandIo(next, write, value);
            && e.(isr := next.isr, tmr := next.tmr) == next
            && (c.Done? ==> c.regs.(irr := next.irr, irrLevel := next.irrLevel, icrLow := next.icrLow) == next)
  {
    hide CanRoute, OnlyBits, Highest, EoiVector;
  }

  lemma IoTimer(r: Regs, off: nat, write: bool, value: nat, ticks: nat)
    requires r.now <= ticks && Io(r, off, write, value, ticks).Done? && TimerOk(Advance(r, ticks))
    ensures TimerOk(Io(r, off, write, value, ticks).regs)
  {
    hide Advance, Divisor, SameMaps, ControlIo, VectorIo, TimerIo, CommandIo, Retired;
    var next, out := Advance(r, ticks), Io(r, off, write, value, ticks).regs;
    ControlParts(next, r.id, write, value);
    MapsTimer(next, write, value);
    if off < 0x320 {
      if off != 0xb0 && off != 0x300 {
        ControlSame(next, r.id, off, write, value);
      }
      SameDivisor(next, out);
    } else if off < 0x380 {
      VectorSame(next, off, write, value);
      SameDivisor(next, out);
    } else {
      TimerMaps(next, off, write, value);
      if out.divide == next.divide {
        SameDivisor(next, out);
      }
    }
  }

  lemma MapsKeep(r: Regs, r': Regs, gone: nat, out: Regs)
    requires Keeps(r, r', gone) && SameMaps(r', out) && TimerOk(out)
    ensures Keeps(r, out, gone)
  {
  }

  /** Every register access keeps the invariant and every level vector served,
      except that an end-of-interrupt write retires the vector it reports. */
  lemma IoKeeps(r: Regs, off: nat, write: bool, value: nat, ticks: nat)
    requires Ok(r) && Io(r, off, write, value, ticks).Done?
    ensures r.now <= ticks
    ensures Keeps(r, Io(r, off, write, value, ticks).regs, if off == 0xb0 then EoiVector(r) else 0)
    ensures Io(r, off, write, value, ticks).regs.isr == if off == 0xb0 then Retired(r).isr else r.isr
  {
    var next, out := Advance(r, ticks), Io(r, off, write, value, ticks).regs;
    AdvanceKeeps(r, ticks);
    IoMaps(r, off, write, value, ticks);
    IoTimer(r, off, write, value, ticks);
    hide Io, Advance, Divisor, TimerOk;
    if off == 0xb0 {
      RetireKeeps(next);
    } else if SameMaps(next, out) {
      MapsKeep(r, next, 0, out);
    } else {
      var v :| 16 <= v < 256 && SameMaps(Routed(next, v, false), out);
      RouteKeeps(next, v, false);
      MapsKeep(r, Routed(next, v, false), 0, out);
    }
  }

  /** An acknowledge puts the new vector on top, an end of interrupt takes the top away. */
  lemma AcceptOnTop(r: Regs, v: nat)
    requires Ok(r) && CanAccept(r, v)
    ensures Highest(Accepted(r, v).isr) == v && v !in r.isr
  {
    AcceptOutranks(r, v);
    hide Advance, Divisor, PendingVector;
    var h := Highest(Accepted(r, v).isr);
    assert v <= h;
  }

  // ---- the object ---------------------------------------------------------

  class LocalApic {
    var r: Regs

    constructor (ticks: nat, id: nat, bootstrap: bool)
      requires id < 255
      ensures r == InitCpu(ticks, id, bootstrap) && Ok(r)
    {
      r := InitCpu(ticks, id, bootstrap);
    }

    method Init(ticks: nat, id: nat, bootstrap: bool) returns (ok: bool)
      requires Ok(r)
      modifies this
      ensures ok == (id < 255) && r == (if ok then InitCpu(ticks, id, bootstrap) else old(r)) && Ok(r)
    {
      if id >= 255 {
        return false;
      }
      r := InitCpu(ticks, id, bootstrap);
      return true;
    }

    /** The descending scan for the highest set vector. */
    method Scan(bits: set<nat>) returns (h: nat)
      ensures h == Highest(bits)
    {
      var v := 256;
      while v > 16
        invariant 16 <= v <= 256 && Highest(bits) == HighestFrom(bits, v - 1)
      {
        v := v - 1;
        if v in bits {
          return v;
        }
      }
      h := 0;
    }

    /** aos_x86_apic_pending: time moves, nothing served is lost. */
    method Pending(ticks: nat) returns (v: nat)
      requires Ok(r)
      modifies this
      ensures Ok(r) && Keeps(old(r), r, 0) && r.isr == old(r.isr)
      ensures ticks < old(r.now) ==> v == 0 && r == old(r)
      ensures ticks >= old(r.now) ==> r == Ticks(old(r), ticks - old(r.now)) && v == PendingVector(r)
    {
      hide Advance, Divisor, Ticks, TimerOk, Highest;
      if ticks < r.now {
        return 0;
      }
      AdvanceIsTicks(r, ticks - r.now);
      AdvanceKeeps(r, ticks);
      r := Advance(r, ticks);
      if r.invalidVector {
        return INVALID_VECTOR;
      }
      var inService := Scan(r.isr);
      var priority := if r.tpr / 16 >= inService / 16 then r.tpr else inService / 16 * 16;
      v := Scan(r.irr);
      if !(Enabled(r) && v / 16 > priority / 16) {
        v := 0;
      }
    }

    /** aos_x86_apic_accept: succeeds exactly for the vector that is pending now. */
    method Accept(vector: nat) returns (ok: bool)
      requires Ok(r)
      modifies this
      ensures ok == CanAccept(old(r), vector) && Ok(r) && Keeps(old(r), r, 0)
      ensures ok ==> r == Accepted(old(r), vector) && Highest(r.isr) == vector
      ensures !ok ==> r == old(r)
    {
      AdvanceNothing(r);
      if vector == 0 || vector >= 256 {
        return false;
      }
      var pending := Pending(r.now);
      if vector != pending {
        return false;
      }
      AcceptKeeps(r, vector);
      AcceptOnTop(r, vector);
      hide Advance, Divisor, PendingVector;
      var level := vector in r.irrLevel;
      r := r.(irr := r.irr - {vector}, isr := r.isr + {vector});
      r := r.(tmr := if level then r.tmr + {vector} else r.tmr - {vector});
      r := r.(irrLevel := r.irrLevel - {vector});
      ok := true;
    }

    /** aos_x86_apic_route. */
    method Route(vector: nat, destination: nat, logical: bool, level: bool) returns (ok: bool)
      requires Ok(r)
      modifies this
      ensures ok == CanRoute(old(r), vector, destination, logical)
      ensures r == if ok then Routed(old(r), vector, level) else old(r)
      ensures Ok(r) && Keeps(old(r), r, 0) && (ok && level ==> Holds(r, vector))
    {
      ok := CanRoute(r, vector, destination, logical);
      if ok {
        RouteKeeps(r, vector, level);
        hide Divisor, CanRoute;
        r := r.(irr := r.irr + {vector});
        if level {
          r := r.(irrLevel := r.irrLevel + {vector});
        }
      }
    }

    /** aos_x86_apic_io: works on a copy, commits on success. */
    method Access(off: nat, write: bool, value: nat, ticks: nat) returns (ok: bool, result: nat)
      requires Ok(r)
      modifies this
      ensures ok == Io(old(r), off, write, value, ticks).Done?
      ensures !ok ==> r == old(r) && result == value
      ensures ok ==> Io(old(r), off, write, value, ticks) == Done(r, result)
      ensures Ok(r) && Keeps(old(r), r, if ok && off == 0xb0 then EoiVector(old(r)) else 0)
    {
      var next := Io(r, off, write, value, ticks);
      match next
      case Refused => ok, result := false, value;
      case Done(regs, v) =>
        IoKeeps(r, off, write, value, ticks);
        r := regs;
        ok, result := true, v;
    }
  }
}
