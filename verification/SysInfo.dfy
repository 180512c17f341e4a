/** The two loops that scale sysinfo's memory figures: up to bytes, and down for 32-bit callers. */
module SysInfo {

  /** The ranges of an unsigned long (64 bits) and of an unsigned int (32 bits). */
  const ULONG: nat := 0x1_0000_0000_0000_0000
  const UINT: nat := 0x1_0000_0000
  const PAGE_SIZE: nat := 4096
  const PAGE_SHIFT: nat := 12

  datatype Memory = Memory(
    totalram: nat, freeram: nat, sharedram: nat, bufferram: nat,
    totalswap: nat, freeswap: nat, totalhigh: nat, freehigh: nat)
  {
    function Each(f: nat -> nat): Memory {
      Memory(f(totalram), f(freeram), f(sharedram), f(bufferram),
             f(totalswap), f(freeswap), f(totalhigh), f(freehigh))
    }

    function Fields(): (r: seq<nat>)
      ensures |r| == 8
    {
      [totalram, freeram, sharedram, bufferram, totalswap, freeswap, totalhigh, freehigh]
    }

    /** No sub-total exceeds the total it is part of. */
    ghost predicate Sane() {
      && totalram < ULONG && totalswap < ULONG
      && freeram <= totalram && sharedram <= totalram && bufferram <= totalram
      && totalhigh <= totalram && freehigh <= totalram
      && freeswap <= totalswap
    }
  }

  /** x << n on an unsigned long, and x >> n. */
  function Shl(x: nat, n: nat): nat {
    if n == 0 then x else (2 * Shl(x, n - 1)) % ULONG
  }

  function Shr(x: nat, n: nat): nat {
    if n == 0 then x else Shr(x, n - 1) / 2
  }

  /** x doubled n times, without a bound. */
  function Doubled(x: nat, n: nat): nat {
    if n == 0 then x else 2 * Doubled(x, n - 1)
  }

  /** How often `unit` can be halved before it is 1 or less: how often the loop shifts. */
  function Log2(unit: nat): nat {
    if unit <= 1 then 0 else 1 + Log2(unit / 2)
  }

  ghost predicate IsPow2(unit: nat) {
    unit == Doubled(1, Log2(unit))
  }

  // ----- arithmetic of shifts -----

  lemma DoubledIsProduct(x: nat, n: nat)
    ensures Doubled(x, n) == x * Doubled(1, n)
  {
    if n > 0 {
      DoubledIsProduct(x, n - 1);
      assert x * (2 * Doubled(1, n - 1)) == 2 * (x * Doubled(1, n - 1));
    }
  }

  lemma DoubledMore(x: nat, y: nat, n: nat)
    requires x <= y
    ensures x <= Doubled(x, n) <= Doubled(y, n)
  {
  }

  lemma DoubledAdd(x: nat, m: nat, n: nat)
    ensures Doubled(Doubled(x, m), n) == Doubled(x, m + n)
  {
  }

  /** As long as the doubled value fits, shifting is doubling. */
  lemma ShlExact(x: nat, n: nat)
    requires Doubled(x, n) < ULONG
    ensures Shl(x, n) == Doubled(x, n)
  {
    if n > 0 {
      DoubledMore(Doubled(x, n - 1), Doubled(x, n - 1), 1);
      ShlExact(x, n - 1);
    }
  }

  /** Shifting down undoes doubling, and otherwise loses less than one new unit. */
  lemma ShrLoses(x: nat, n: nat)
    ensures Doubled(Shr(x, n), n) <= x < Doubled(Shr(x, n), n) + Doubled(1, n)
  {
    if n > 0 {
      ShrLoses(x, n - 1);
      var y := Shr(x, n - 1);
      DoubledFlip(y / 2, n - 1);
      DoubledSum(2 * (y / 2), y % 2, n - 1);
      DoubledMore(y % 2, 1, n - 1);
    }
  }

  lemma DoubledFlip(x: nat, n: nat)
    ensures 2 * Doubled(x, n) == Doubled(2 * x, n)
  {
  }

  lemma DoubledSum(x: nat, y: nat, n: nat)
    ensures Doubled(x + y, n) == Doubled(x, n) + Doubled(y, n)
  {
    if n > 0 { DoubledSum(x, y, n - 1); }
  }

  lemma ShrUndoes(x: nat, n: nat)
    ensures Shr(Doubled(x, n), n) == x
    decreases n
  {
    if n > 0 {
      DoubledFlip(x, n - 1);
      ShrUndoes(2 * x, n - 1);
    }
  }

  lemma {:induction false} LogOfDoubled(n: nat)
    ensures Log2(Doubled(1, n)) == n && IsPow2(Doubled(1, n))
  {
    if n > 0 {
      LogOfDoubled(n - 1);
      DoubledMore(1, 1, n - 1);
      assert 2 * Doubled(1, n - 1) / 2 == Doubled(1, n - 1);
    }
  }

  // ----- scaling up: do_sysinfo -----

  /** The total in bytes, as the loop computes it, fits an unsigned long. */
  predicate Fits(m: Memory, unit: nat) {
    Doubled(m.totalram + m.totalswap, Log2(unit)) < ULONG
  }

  datatype Info = Info(memory: Memory, unit: nat)

  function ScaledUp(i: Info): Info {
    if Fits(i.memory, i.unit) then Info(i.memory.Each(x => Shl(x, Log2(i.unit))), 1) else i
  }

  /** For a power-of-two unit the overflow test is exact. */
  lemma FitsExactly(m: Memory, unit: nat)
    requires IsPow2(unit)
    ensures Fits(m, unit) <==> (m.totalram + m.totalswap) * unit < ULONG
  {
    DoubledIsProduct(m.totalram + m.totalswap, Log2(unit));
  }

  lemma FieldFits(m: Memory, unit: nat, k: int)
    requires m.Sane() && 0 <= k < 8 && Fits(m, unit)
    ensures Doubled(m.Fields()[k], Log2(unit)) < ULONG
  {
    DoubledMore(m.Fields()[k], m.totalram + m.totalswap, Log2(unit));
  }

  /** Scaling preserves every figure times its unit, and never leaves a figure that does not fit. */
  lemma ScalingPreservesBytes(i: Info, k: int)
    requires i.memory.Sane() && IsPow2(i.unit) && 0 <= k < 8
    ensures ScaledUp(i).memory.Fields()[k] * ScaledUp(i).unit == i.memory.Fields()[k] * i.unit
    ensures ScaledUp(i).memory.Sane() && IsPow2(ScaledUp(i).unit)
  {
    if Fits(i.memory, i.unit) {
      forall j | 0 <= j < 8
        ensures Shl(i.memory.Fields()[j], Log2(i.unit)) == Doubled(i.memory.Fields()[j], Log2(i.unit))
      {
        FieldFits(i.memory, i.unit, j);
        ShlExact(i.memory.Fields()[j], Log2(i.unit));
      }
      ScaledFields(i, k);
      DoubledIsProduct(i.memory.Fields()[k], Log2(i.unit));
      ScaledSane(i);
    }
  }

  /** A native caller is given bytes exactly if total memory in bytes fits an unsigned long. */
  lemma ScalesExactly(i: Info)
    requires i.memory.Sane() && IsPow2(i.unit)
    ensures (i.memory.totalram + i.memory.totalswap) * i.unit < ULONG ==> ScaledUp(i).unit == 1
    ensures (i.memory.totalram + i.memory.totalswap) * i.unit >= ULONG ==> ScaledUp(i) == i
  {
    FitsExactly(i.memory, i.unit);
  }

  lemma ScaledFields(i: Info, k: int)
    requires 0 <= k < 8 && Fits(i.memory, i.unit)
    ensures ScaledUp(i).memory.Fields()[k] == Shl(i.memory.Fields()[k], Log2(i.unit))
  {
  }

  lemma ScaledSane(i: Info)
    requires i.memory.Sane() && Fits(i.memory, i.unit)
    requires forall j :: 0 <= j < 8 ==>
               Shl(i.memory.Fields()[j], Log2(i.unit)) == Doubled(i.memory.Fields()[j], Log2(i.unit))
    ensures ScaledUp(i).memory.Sane()
  {
    var m, n := i.memory, Log2(i.unit);
    var f := m.Fields();
    FieldFits(m, i.unit, 0);
    FieldFits(m, i.unit, 4);
    assert f[0] == m.totalram && f[1] == m.freeram && f[2] == m.sharedram && f[3] == m.bufferram;
    assert f[4] == m.totalswap && f[5] == m.freeswap && f[6] == m.totalhigh && f[7] == m.freehigh;
    DoubledMore(m.freeram, m.totalram, n);
    DoubledMore(m.sharedram, m.totalram, n);
    DoubledMore(m.bufferram, m.totalram, n);
    DoubledMore(m.totalhigh, m.totalram, n);
    DoubledMore(m.freehigh, m.totalram, n);
    DoubledMore(m.freeswap, m.totalswap, n);
  }

  /** With any other unit, a scaled figure is wrong unless it is 0: the factor is too small. */
  lemma OtherUnitsLose(i: Info, k: int)
    requires i.memory.Sane() && 0 <= k < 8 && Fits(i.memory, i.unit)
    ensures ScaledUp(i).memory.Fields()[k] * ScaledUp(i).unit == i.memory.Fields()[k] * i.unit
            <==> IsPow2(i.unit) || i.memory.Fields()[k] == 0
  {
    var x, n := i.memory.Fields()[k], Log2(i.unit);
    FieldFits(i.memory, i.unit, k);
    ShlExact(x, n);
    ScaledFields(i, k);
    DoubledIsProduct(x, n);
    var factor := Doubled(1, n);
    assert ScaledUp(i).memory.Fields()[k] == x * factor;
    assert x != 0 && factor != i.unit ==> x * factor != x * i.unit by {
      if x != 0 && factor != i.unit { MulCancel(x, factor, i.unit); }
    }
  }

  lemma MulCancel(x: int, a: int, b: int)
    requires x != 0 && a != b
    ensures x * a != x * b
  {
    assert x * a - x * b == x * (a - b);
  }

  class SysinfoStruct {
    var totalram: nat
    var freeram: nat
    var sharedram: nat
    var bufferram: nat
    var totalswap: nat
    var freeswap: nat
    var totalhigh: nat
    var freehigh: nat
    var memUnit: nat

    function Value(): Info
      reads this
    {
      Info(Memory(totalram, freeram, sharedram, bufferram, totalswap, freeswap, totalhigh, freehigh), memUnit)
    }

    /** The overflow test of do_sysinfo, which counts the shifts as it goes. */
    method CountShifts() returns (fits: bool, bitcount: nat)
      requires totalram < ULONG && totalswap < ULONG && memUnit < UINT
      ensures fits == Fits(Value().memory, memUnit)
      ensures fits ==> bitcount == Log2(memUnit)
    {
      ghost var total := totalram + totalswap;
      var memTotal := (totalram + totalswap) % ULONG;
      if memTotal < totalram || memTotal < totalswap {
        DoubledMore(total, total, Log2(memUnit));
        return false, 0;
      }
      bitcount := 0;
      var unit := memUnit;
      while unit > 1
        invariant memTotal == Doubled(total, bitcount) < ULONG
        invariant Log2(memUnit) == bitcount + Log2(unit)
        decreases unit
      {
        bitcount := bitcount + 1;
        unit := unit / 2;
        var savTotal := memTotal;
        memTotal := (memTotal * 2) % ULONG;
        if memTotal < savTotal {
          DoubledAdd(total, bitcount, Log2(unit));
          DoubledMore(Doubled(total, bitcount), Doubled(total, bitcount), Log2(unit));
          return false, 0;
        }
      }
      fits := true;
    }

    /** do_sysinfo, once si_meminfo and si_swapinfo have filled in the figures. */
    method DoSysinfo()
      requires Value().memory.Sane() && memUnit < UINT
      modifies this
      ensures Value() == ScaledUp(old(Value()))
    {
      var fits, bitcount := CountShifts();
      if !fits {
        return;
      }
      memUnit := 1;
      ShiftUp(bitcount);
    }

    method ShiftUp(bitcount: nat)
      modifies this
      ensures Value() == Info(old(Value()).memory.Each(x => Shl(x, bitcount)), old(memUnit))
    {
      totalram := Shl(totalram, bitcount);
      freeram := Shl(freeram, bitcount);
      sharedram := Shl(sharedram, bitcount);
      bufferram := Shl(bufferram, bitcount);
      totalswap := Shl(totalswap, bitcount);
      freeswap := Shl(freeswap, bitcount);
      totalhigh := Shl(totalhigh, bitcount);
      freehigh := Shl(freehigh, bitcount);
    }

    method ShiftDown(bitcount: nat)
      modifies this
      ensures Value() == Info(old(Value()).memory.Each(x => Shr(x, bitcount)), old(memUnit))
    {
      totalram := Shr(totalram, bitcount);
      freeram := Shr(freeram, bitcount);
      sharedram := Shr(sharedram, bitcount);
      bufferram := Shr(bufferram, bitcount);
      totalswap := Shr(totalswap, bitcount);
      freeswap := Shr(freeswap, bitcount);
      totalhigh := Shr(totalhigh, bitcount);
      freehigh := Shr(freehigh, bitcount);
    }

    /** The loop of the compat call: doubles the unit until it is a page, counting the shifts. */
    method RaiseUnit() returns (bitcount: nat)
      requires 0 < memUnit < UINT
      modifies this`memUnit
      ensures bitcount == Steps(old(memUnit)) && memUnit == Doubled(old(memUnit), bitcount)
    {
      bitcount := 0;
      while memUnit < PAGE_SIZE
        invariant memUnit > 0
        invariant Steps(old(memUnit)) == bitcount + Steps(memUnit)
        invariant memUnit == Doubled(old(memUnit), bitcount)
        decreases PAGE_SIZE - memUnit
      {
        RaiseOnce(memUnit, old(memUnit), bitcount);
        hide Steps, Doubled;
        memUnit := (memUnit * 2) % UINT;
        bitcount := bitcount + 1;
      }
    }

    /** The rescaling of the compat call, for callers whose figures have 32 bits. */
    method ScaleDown()
      requires 0 < memUnit < UINT
      modifies this
      ensures Value() == ScaledDown(old(Value()))
    {
      if totalram / UINT != 0 || totalswap / UINT != 0 {
        var bitcount := RaiseUnit();
        ShiftDown(bitcount);
      }
    }
  }

  // ----- scaling down: the compat call -----

  /** How often a unit is doubled until it reaches a page. */
  function Steps(unit: nat): nat
    requires unit > 0
    decreases PAGE_SIZE - unit
  {
    if unit >= PAGE_SIZE then 0 else 1 + Steps(2 * unit)
  }

  lemma RaiseOnce(unit: nat, original: nat, bitcount: nat)
    requires 0 < unit < PAGE_SIZE
    ensures (unit * 2) % UINT == 2 * unit
    ensures Steps(unit) == 1 + Steps(2 * unit)
    ensures Doubled(original, bitcount + 1) == 2 * Doubled(original, bitcount)
  {
  }

  predicate TooWide(m: Memory) {
    m.totalram >= UINT || m.totalswap >= UINT
  }

  function ScaledDown(i: Info): Info
    requires i.unit > 0
  {
    if TooWide(i.memory) then Info(i.memory.Each(x => Shr(x, Steps(i.unit))), Doubled(i.unit, Steps(i.unit))) else i
  }

  /** A power of two reaches a page exactly, or is one or more pages already. */
  lemma {:induction false} StepsFrom(n: nat)
    requires n <= PAGE_SHIFT
    ensures Doubled(1, n) > 0
    ensures Steps(Doubled(1, n)) == PAGE_SHIFT - n && Doubled(Doubled(1, n), PAGE_SHIFT - n) == PAGE_SIZE
    decreases PAGE_SHIFT - n
  {
    PowersUpToPage(n);
    if n < PAGE_SHIFT {
      StepsFrom(n + 1);
    }
    DoubledAdd(1, n, PAGE_SHIFT - n);
  }

  lemma PowersUpToPage(n: nat)
    requires n <= PAGE_SHIFT
    ensures Doubled(1, PAGE_SHIFT) == PAGE_SIZE
    ensures n < PAGE_SHIFT ==> 1 <= Doubled(1, n) < PAGE_SIZE
  {
    assert Doubled(1, 4) == 16;
    assert Doubled(1, 8) == 256 by { DoubledAdd(1, 4, 4); assert Doubled(16, 4) == 256; }
    assert Doubled(1, 12) == 4096 by { DoubledAdd(1, 8, 4); assert Doubled(256, 4) == 4096; }
    if n < PAGE_SHIFT {
      DoubledAdd(1, n, PAGE_SHIFT - n);
      DoubledMore(1, 1, n);
      DoubledTwice(Doubled(1, n), PAGE_SHIFT - n);
    }
  }

  lemma DoubledTwice(x: nat, n: nat)
    requires n > 0
    ensures Doubled(x, n) >= 2 * x
  {
    DoubledMore(x, x, n - 1);
  }

  lemma StepsReachPage(unit: nat)
    requires IsPow2(unit)
    ensures unit > 0
    ensures Doubled(unit, Steps(unit)) == if unit < PAGE_SIZE then PAGE_SIZE else unit
    ensures unit < PAGE_SIZE ==> Log2(unit) + Steps(unit) == PAGE_SHIFT
    ensures unit >= PAGE_SIZE ==> Log2(unit) >= PAGE_SHIFT && Steps(unit) == 0
  {
    var n := Log2(unit);
    DoubledMore(1, 1, n);
    if n < PAGE_SHIFT {
      StepsFrom(n);
      PowersUpToPage(n);
    } else {
      DoubledAdd(1, PAGE_SHIFT, n - PAGE_SHIFT);
      PowersUpToPage(PAGE_SHIFT);
      DoubledMore(PAGE_SIZE, PAGE_SIZE, n - PAGE_SHIFT);
    }
  }

  lemma DownField(i: Info, k: int)
    requires i.unit > 0 && 0 <= k < 8 && TooWide(i.memory)
    ensures ScaledDown(i).memory.Fields()[k] == Shr(i.memory.Fields()[k], Steps(i.unit))
  {
  }

  /**
   Nothing is rescaled that need not be: with both totals below 2^32 every figure and the unit
   are as before. Otherwise the unit is a page, or what it was if that is more.
   */
  lemma RescalesExactly(i: Info)
    requires IsPow2(i.unit)
    ensures i.unit > 0
    ensures i.memory.totalram < UINT && i.memory.totalswap < UINT ==> ScaledDown(i) == i
    ensures i.memory.totalram >= UINT || i.memory.totalswap >= UINT ==>
              ScaledDown(i).unit == if i.unit < PAGE_SIZE then PAGE_SIZE else i.unit
  {
    StepsReachPage(i.unit);
  }

  /** Rescaling for 32-bit callers loses less than a page of each figure, in bytes. */
  lemma ScalingDownLoses(i: Info, k: int)
    requires IsPow2(i.unit) && 0 <= k < 8
    ensures i.unit > 0
    ensures var r := ScaledDown(i);
            r.memory.Fields()[k] * r.unit <= i.memory.Fields()[k] * i.unit < r.memory.Fields()[k] * r.unit + PAGE_SIZE
  {
    StepsReachPage(i.unit);
    if TooWide(i.memory) {
      DownField(i, k);
      var x, n := i.memory.Fields()[k], Steps(i.unit);
      ShiftedBytes(x, i.unit, n);
    }
  }

  /** In bytes: a figure shifted down by n, in units 2^n times as large. */
  lemma ShiftedBytes(x: nat, unit: nat, n: nat)
    requires unit > 0
    ensures Shr(x, n) * Doubled(unit, n) <= x * unit
    ensures n == 0 ==> Shr(x, n) * Doubled(unit, n) == x * unit
    ensures n > 0 ==> x * unit < Shr(x, n) * Doubled(unit, n) + Doubled(unit, n)
  {
    hide Shr, Doubled;
    ShrLoses(x, n);
    DoubledIsProduct(Shr(x, n), n);
    DoubledIsProduct(unit, n);
    InUnits(x, Shr(x, n), Doubled(1, n), unit);
    if n == 0 { NoShift(x, unit); }
  }

  lemma NoShift(x: nat, unit: nat)
    ensures Shr(x, 0) == x && Doubled(unit, 0) == unit
  {
  }

  lemma InUnits(x: nat, y: nat, p: nat, unit: nat)
    requires unit > 0 && y * p <= x < y * p + p
    ensures y * (unit * p) <= x * unit < y * (unit * p) + unit * p
  {
    var rest := x - y * p;
    assert x * unit == (y * p) * unit + rest * unit;
    assert (y * p) * unit == y * (unit * p);
    MulOrder(0, rest, unit);
    MulOrder(rest, p - 1, unit);
    assert (p - 1) * unit == unit * p - unit;
  }

  lemma MulOrder(a: int, b: int, c: nat)
    requires a <= b
    ensures a * c <= b * c
  {
  }

  /**
   Both scalings together lose less than a page of each figure; and nothing at all if the
   figures were counted in whole pages to begin with.
   */
  lemma ReportedBytes(i: Info, k: int)
    requires i.memory.Sane() && IsPow2(i.unit) && 0 <= k < 8
    ensures ScaledUp(i).unit > 0
    ensures var r := ScaledDown(ScaledUp(i));
            var bytes := i.memory.Fields()[k] * i.unit;
            && r.memory.Fields()[k] * r.unit <= bytes < r.memory.Fields()[k] * r.unit + PAGE_SIZE
            && (i.unit % PAGE_SIZE == 0 ==> r.memory.Fields()[k] * r.unit == bytes)
  {
    var u := ScaledUp(i);
    ScalingPreservesBytes(i, k);
    ScalingDownLoses(u, k);
    if i.unit % PAGE_SIZE == 0 {
      WholePages(i, k);
    }
  }

  lemma WholePages(i: Info, k: int)
    requires i.memory.Sane() && IsPow2(i.unit) && i.unit % PAGE_SIZE == 0 && 0 <= k < 8
    ensures ScaledUp(i).unit > 0
    ensures var r := ScaledDown(ScaledUp(i));
            r.memory.Fields()[k] * r.unit == ScaledUp(i).memory.Fields()[k] * ScaledUp(i).unit
  {
    var u := ScaledUp(i);
    var x, n := i.memory.Fields()[k], Log2(i.unit);
    StepsReachPage(i.unit);
    assert i.unit >= PAGE_SIZE;
    if TooWide(u.memory) {
      DownField(u, k);
      if Fits(i.memory, i.unit) {
        FieldFits(i.memory, i.unit, k);
        ShlExact(x, n);
        ScaledFields(i, k);
        PagesSurvive(x, n);
      } else {
        ShiftedBytes(u.memory.Fields()[k], u.unit, 0);
      }
    }
  }

  /** A figure doubled at least twelve times is a whole number of pages in bytes. */
  lemma PagesSurvive(x: nat, n: nat)
    requires n >= PAGE_SHIFT
    ensures Shr(Doubled(x, n), Steps(1)) * Doubled(1, Steps(1)) == Doubled(x, n)
  {
    StepsFrom(0);
    Survives(x, n, Steps(1));
  }

  lemma Survives(x: nat, n: nat, down: nat)
    requires n >= down
    ensures Shr(Doubled(x, n), down) * Doubled(1, down) == Doubled(x, n)
  {
    hide Shr, Doubled;
    var y := Doubled(x, n - down);
    DoubledAdd(x, n - down, down);
    ShrUndoes(y, down);
    DoubledIsProduct(y, down);
  }

  /** __put_user into a 32-bit field. */
  function Put32(x: nat): nat {
    x % UINT
  }

  /** The unit, or a page if that is more. */
  function AtLeastPage(unit: nat): nat {
    if unit < PAGE_SIZE then PAGE_SIZE else unit
  }

  /** A rescaled figure fits 32 bits exactly if it is less than 2^32 pages, or units if these are larger. */
  lemma RescaledSeenExactly(i: Info, k: int)
    requires i.memory.Sane() && IsPow2(i.unit) && 0 <= k < 8
    ensures i.unit > 0
    ensures var x := ScaledDown(i).memory.Fields()[k];
            Put32(x) == x <==> i.memory.Fields()[k] * i.unit < UINT * AtLeastPage(i.unit)
  {
    StepsReachPage(i.unit);
    ScaledDownField(i, k);
    SeenExactly(i.memory.Fields()[k], i.unit, ShiftsDown(i));
    if !TooWide(i.memory) {
      NarrowFigure(i.memory, i.unit, k);
    }
  }

  lemma NarrowFigure(m: Memory, unit: nat, k: int)
    requires m.Sane() && !TooWide(m) && 0 < unit && 0 <= k < 8
    ensures m.Fields()[k] < UINT && m.Fields()[k] * unit < UINT * unit <= UINT * AtLeastPage(unit)
  {
    MulOrder(m.Fields()[k], UINT - 1, unit);
    assert (UINT - 1) * unit + unit == UINT * unit;
    MulOrder(unit, AtLeastPage(unit), UINT);
  }

  /**
   A 32-bit caller sees a figure exactly, after both scalings, if and only if its bytes are less
   than 2^32 pages; or less than 2^32 of larger units, where total memory did not fit 64 bits.
   */
  lemma FiguresSeenExactly(i: Info, k: int)
    requires i.memory.Sane() && IsPow2(i.unit) && 0 <= k < 8
    ensures ScaledUp(i).unit > 0
    ensures var x := ScaledDown(ScaledUp(i)).memory.Fields()[k];
            var inBytes := (i.memory.totalram + i.memory.totalswap) * i.unit < ULONG;
            Put32(x) == x
            <==> i.memory.Fields()[k] * i.unit < UINT * (if inBytes then PAGE_SIZE else AtLeastPage(i.unit))
  {
    var u := ScaledUp(i);
    ScalingPreservesBytes(i, k);
    RescaledSeenExactly(u, k);
    FitsExactly(i.memory, i.unit);
  }

  /** 2^44 bytes of memory, in pages. */
  const WIDE: Info := Info(Memory(UINT, 0, 0, 0, 0, 0, 0, 0), PAGE_SIZE)

  lemma WideInBytes()
    ensures WIDE.memory.Sane() && IsPow2(WIDE.unit)
    ensures ScaledUp(WIDE).unit == 1 && ScaledUp(WIDE).memory.totalram == UINT * PAGE_SIZE
  {
    PowersUpToPage(0);
    LogOfDoubled(PAGE_SHIFT);
    hide Shl, Doubled, Log2;
    FitsExactly(WIDE.memory, WIDE.unit);
    ScalingPreservesBytes(WIDE, 0);
  }

  /** That is the first total that a 32-bit caller does not see: it reads 0 instead. */
  lemma WideTotalReadsZero()
    ensures WIDE.memory.Sane() && IsPow2(WIDE.unit) && ScaledUp(WIDE).unit > 0
    ensures WIDE.memory.totalram * WIDE.unit == UINT * PAGE_SIZE
    ensures var r := ScaledDown(ScaledUp(WIDE));
            r.unit == PAGE_SIZE && Put32(r.memory.totalram) == 0 != r.memory.totalram
  {
    WideInBytes();
    var u := ScaledUp(WIDE);
    StepsFrom(0);
    RescaledUnit(u);
    ReportedBytes(WIDE, 0);
    hide Shl, Shr, Doubled, Log2, Steps, ScaledUp, ScaledDown;
    assert ScaledDown(u).memory.Fields()[0] * PAGE_SIZE == UINT * PAGE_SIZE;
  }

  lemma RescaledUnit(i: Info)
    requires i.unit > 0 && TooWide(i.memory)
    ensures ScaledDown(i).unit == Doubled(i.unit, Steps(i.unit))
  {
  }

  function ShiftsDown(i: Info): nat
    requires i.unit > 0
  {
    if TooWide(i.memory) then Steps(i.unit) else 0
  }

  lemma ScaledDownField(i: Info, k: int)
    requires i.unit > 0 && 0 <= k < 8
    ensures ScaledDown(i).memory.Fields()[k] == Shr(i.memory.Fields()[k], ShiftsDown(i))
    ensures ScaledDown(i).unit == Doubled(i.unit, ShiftsDown(i))
  {
    if TooWide(i.memory) {
      DownField(i, k);
    } else {
      NoShift(i.memory.Fields()[k], i.unit);
    }
  }

  lemma SeenExactly(x: nat, unit: nat, n: nat)
    requires unit > 0
    ensures Shr(x, n) < UINT <==> x * unit < UINT * Doubled(unit, n)
  {
    var y, p := Shr(x, n), Doubled(unit, n);
    ShiftedBytes(x, unit, n);
    DoubledMore(unit, unit, n);
    hide Shr, Doubled;
    if y < UINT {
      MulOrder(y, UINT - 1, p);
      assert (UINT - 1) * p + p == UINT * p;
    } else {
      MulOrder(UINT, y, p);
    }
  }
}
