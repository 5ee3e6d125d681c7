/** Long-mode page walks over guest RAM. */
module PageWalk {
  import opened Machine
  import opened Modular
  import opened Limbs

  type Bytes = seq<uint8>

  datatype Option<T> = None | Some(value: T)

  /** RAM offsets of the entries visited, root first, and the address they map to. */
  datatype Walked = Walked(entries: seq<nat>, physical: nat)

  const SPAN := 0x10_0000_0000

  /** Bytes mapped by one entry of each level. */
  function Page(level: nat): (p: nat)
    requires 1 <= level <= 4
    ensures p > 0
  {
    if level == 1 then 0x1000 else if level == 2 then 0x20_0000 else if level == 3 then 0x4000_0000 else 0x80_0000_0000
  }

  /** Page number and offset in a page. */
  function High(va: nat, page: nat): nat
    requires page > 0
  {
    va / page
  }

  function Low(va: nat, page: nat): (o: nat)
    requires page > 0
    ensures o < page
  {
    va % page
  }

  predicate Canonical(va: nat) { va / 0x8000_0000_0000 == 0 || va / 0x8000_0000_0000 == 0x1_ffff }

  function EntryAt(table: nat, va: nat, level: nat): nat
    requires 1 <= level <= 4
  {
    table + High(va, Page(level)) % 512 * 8
  }

  /** Present, no reserved physical bits, and permitting the access. */
  predicate Permits(e: nat, write: bool, execute: bool) {
    e % 2 == 1 && e / SPAN % 0x1_0000 == 0 && (write ==> e / 2 % 2 == 1) && (execute ==> e / 0x8000_0000_0000_0000 == 0)
  }

  function Frame(e: nat, page: nat): nat
    requires page > 0
  {
    e / page * page % SPAN
  }

  datatype Kind = Fault | LeafAt(base: nat) | TableAt(next: nat)

  /** What the entry at RAM offset `at` says, at its level. */
  function Classify(ram: Bytes, at: nat, level: nat, write: bool, execute: bool): (k: Kind)
    requires 1 <= level <= 4
    ensures !k.Fault? ==> at + 8 <= |ram|
    ensures k.TableAt? ==> level > 1
    ensures k.LeafAt? ==> level <= 2
  {
    if at + 8 > |ram| then Fault
    else
      var e := LE(ram[at..at + 8]);
      if !Permits(e, write, execute) then Fault
      else
        var large := e / 128 % 2 == 1 && level > 1;
        if large && level != 2 then Fault
        else if level == 1 || large then
          if large && e / 0x2000 % 0x100 != 0 then Fault else LeafAt(Frame(e, Page(level)))
        else TableAt(Frame(e, 0x1000))
  }

  function WalkFrom(ram: Bytes, table: nat, va: nat, level: nat, write: bool, execute: bool): (w: Option<Walked>)
    requires 1 <= level <= 4
    ensures w.Some? ==> 0 < |w.value.entries| <= level <= |w.value.entries| + 1
    ensures w.Some? ==> forall i | 0 <= i < |w.value.entries| :: w.value.entries[i] + 8 <= |ram|
    decreases level
  {
    var at := EntryAt(table, va, level);
    match Classify(ram, at, level, write, execute)
    case Fault => None
    case LeafAt(base) => Some(Walked([at], base + Low(va, Page(level))))
    case TableAt(next) =>
      match WalkFrom(ram, next, va, level - 1, write, execute)
      case None => None
      case Some(w) => Some(Walked([at] + w.entries, w.physical))
  }

  function Walk(ram: Bytes, cr3: nat, va: nat, write: bool, execute: bool): (w: Option<Walked>)
    ensures w.Some? ==> 3 <= |w.value.entries| <= 4
    ensures w.Some? ==> forall i | 0 <= i < |w.value.entries| :: w.value.entries[i] + 8 <= |ram|
  {
    if !Canonical(va) || cr3 >= SPAN || cr3 % 8 != 0 || cr3 / 32 % 128 != 0 then None
    else WalkFrom(ram, cr3 / 0x1000 * 0x1000, va, 4, write, execute)
  }

  /** Bytes mapped by the leaf a walk from `level` ended in. */
  function Leaf(w: Walked, level: nat): nat
    requires 0 < |w.entries| <= level <= 4
  {
    Page(level + 1 - |w.entries|)
  }

  function EntryValue(ram: Bytes, at: nat): nat
    requires at + 8 <= |ram|
  {
    LE(ram[at..at + 8])
  }

  /** Every entry permits the access, and each but the first is the entry for `va` in the
      table the one before it names. */
  ghost predicate Chained(ram: Bytes, es: seq<nat>, va: nat, level: nat, write: bool, execute: bool)
    requires |es| <= level <= 4
  {
    && (forall i | 0 <= i < |es| :: es[i] + 8 <= |ram| && Permits(EntryValue(ram, es[i]), write, execute))
    && forall i | 0 < i < |es| :: es[i] == EntryAt(Frame(EntryValue(ram, es[i - 1]), 0x1000), va, level - i)
  }

  lemma ChainOne(ram: Bytes, at: nat, va: nat, level: nat, write: bool, execute: bool)
    requires 1 <= level <= 4 && at + 8 <= |ram| && Permits(EntryValue(ram, at), write, execute)
    ensures Chained(ram, [at], va, level, write, execute)
  {
    hide EntryAt, EntryValue, Frame, Permits;
  }

  lemma ChainMore(ram: Bytes, at: nat, es: seq<nat>, va: nat, level: nat, write: bool, execute: bool)
    requires 0 < |es| < level <= 4 && Chained(ram, es, va, level - 1, write, execute)
    requires at + 8 <= |ram| && Permits(EntryValue(ram, at), write, execute)
    requires es[0] == EntryAt(Frame(EntryValue(ram, at), 0x1000), va, level - 1)
    ensures Chained(ram, [at] + es, va, level, write, execute)
  {
    hide EntryAt, EntryValue, Frame, Permits;
    var all := [at] + es;
    forall i | 0 <= i < |all|
      ensures all[i] + 8 <= |ram| && Permits(EntryValue(ram, all[i]), write, execute)
    {
      assert i > 0 ==> all[i] == es[i - 1];
    }
    forall i | 0 < i < |all|
      ensures all[i] == EntryAt(Frame(EntryValue(ram, all[i - 1]), 0x1000), va, level - i)
    {
      assert all[i] == es[i - 1] && (i > 1 ==> all[i - 1] == es[i - 2]);
    }
  }

  lemma Classified(ram: Bytes, at: nat, level: nat, write: bool, execute: bool)
    requires 1 <= level <= 4 && !Classify(ram, at, level, write, execute).Fault?
    ensures Permits(EntryValue(ram, at), write, execute)
    ensures match Classify(ram, at, level, write, execute)
            case LeafAt(base) => base == Frame(EntryValue(ram, at), Page(level))
            case TableAt(next) => next == Frame(EntryValue(ram, at), 0x1000)
            case Fault => false
  {
    hide LE, Permits, Frame, Page;
  }

  lemma WalkUnfolds(ram: Bytes, table: nat, va: nat, level: nat, write: bool, execute: bool)
    requires 1 <= level <= 4 && WalkFrom(ram, table, va, level, write, execute).Some?
    ensures var at, w := EntryAt(table, va, level), WalkFrom(ram, table, va, level, write, execute).value;
            match Classify(ram, at, level, write, execute)
            case LeafAt(base) => w == Walked([at], base + Low(va, Page(level)))
            case TableAt(next) =>
              var v := WalkFrom(ram, next, va, level - 1, write, execute);
              v.Some? && w == Walked([at] + v.value.entries, v.value.physical)
            case Fault => false
  {
    hide Classify, EntryAt, Low, Page;
  }

  /** A walk visits the entry of each level in the table the last entry names, every one of
      them permits the access, and the leaf with the offset gives the address. */
  lemma {:induction false} WalkChain(ram: Bytes, table: nat, va: nat, level: nat, write: bool, execute: bool)
    requires 1 <= level <= 4 && WalkFrom(ram, table, va, level, write, execute).Some?
    ensures var w := WalkFrom(ram, table, va, level, write, execute).value;
            var p := Leaf(w, level);
            && w.entries[0] == EntryAt(table, va, level)
            && Chained(ram, w.entries, va, level, write, execute)
            && w.physical == Frame(EntryValue(ram, w.entries[|w.entries| - 1]), p) + Low(va, p)
    decreases level
  {
    hide WalkFrom, Classify, Chained, EntryAt, EntryValue, Frame, Low, Page, Permits;
    var at := EntryAt(table, va, level);
    WalkUnfolds(ram, table, va, level, write, execute);
    Classified(ram, at, level, write, execute);
    var k := Classify(ram, at, level, write, execute);
    if k.TableAt? {
      WalkChain(ram, k.next, va, level - 1, write, execute);
      var v := WalkFrom(ram, k.next, va, level - 1, write, execute).value;
      ChainMore(ram, at, v.entries, va, level, write, execute);
    } else {
      ChainOne(ram, at, va, level, write, execute);
    }
  }

  lemma SamePage(a: nat, b: nat, p: nat, q: nat)
    requires p > 0 && q > 0 && High(a, p) == High(b, p)
    ensures p * q > 0 && High(a, p * q) == High(b, p * q)
  {
    DivDiv(a, p, q);
    DivDiv(b, p, q);
  }

  lemma HigherPages(a: nat, b: nat, low: nat, high: nat)
    requires 1 <= low <= high <= 4 && High(a, Page(low)) == High(b, Page(low))
    ensures High(a, Page(high)) == High(b, Page(high))
  {
    hide High;
    if low < high {
      HigherPages(a, b, low, high - 1);
      SamePage(a, b, Page(high - 1), 512);
    }
  }

  lemma SameEntry(table: nat, a: nat, b: nat, low: nat, level: nat)
    requires 1 <= low <= level <= 4 && High(a, Page(low)) == High(b, Page(low))
    ensures EntryAt(table, a, level) == EntryAt(table, b, level)
  {
    HigherPages(a, b, low, level);
    hide High, Page;
  }

  /** Addresses in one leaf page take the same entries and keep their distance. */
  lemma {:induction false} SameWalk(ram: Bytes, table: nat, va: nat, vb: nat, level: nat, write: bool, execute: bool)
    requires 1 <= level <= 4 && WalkFrom(ram, table, va, level, write, execute).Some?
    requires var p := Leaf(WalkFrom(ram, table, va, level, write, execute).value, level); High(va, p) == High(vb, p)
    ensures var w := WalkFrom(ram, table, va, level, write, execute).value;
            var p := Leaf(w, level);
            && w.physical >= Low(va, p)
            && WalkFrom(ram, table, vb, level, write, execute)
               == Some(Walked(w.entries, w.physical - Low(va, p) + Low(vb, p)))
    decreases level
  {
    hide Classify, EntryAt, Page, High, Low;
    var w := WalkFrom(ram, table, va, level, write, execute).value;
    SameEntry(table, va, vb, level + 1 - |w.entries|, level);
    var k := Classify(ram, EntryAt(table, va, level), level, write, execute);
    if k.TableAt? {
      SameWalk(ram, k.next, va, vb, level - 1, write, execute);
    }
  }

  lemma SameCanonical(va: nat, vb: nat, low: nat)
    requires 1 <= low <= 4 && High(va, Page(low)) == High(vb, Page(low))
    ensures Canonical(va) == Canonical(vb)
  {
    HigherPages(va, vb, low, 4);
    SamePage(va, vb, Page(4), 0x100);
  }

  lemma WalkSamePage(ram: Bytes, cr3: nat, va: nat, vb: nat, write: bool, execute: bool)
    requires Walk(ram, cr3, va, write, execute).Some?
    requires var p := Leaf(Walk(ram, cr3, va, write, execute).value, 4); High(va, p) == High(vb, p)
    ensures var w := Walk(ram, cr3, va, write, execute).value;
            var p := Leaf(w, 4);
            && w.physical >= Low(va, p)
            && Walk(ram, cr3, vb, write, execute) == Some(Walked(w.entries, w.physical - Low(va, p) + Low(vb, p)))
  {
    hide WalkFrom, Page, Canonical, High, Low;
    var w := Walk(ram, cr3, va, write, execute).value;
    SameWalk(ram, cr3 / 0x1000 * 0x1000, va, vb, 4, write, execute);
    SameCanonical(va, vb, 5 - |w.entries|);
  }
}

/** The fw_cfg device: selected items read one byte at a time or by DMA. */
module FwCfg {
  import opened Machine
  import opened PageWalk

  const LAST32 := 0xffff_ffff
  const BLOB_LIMIT := 64 * 1024 * 1024
  const LOADER_BYTES := 19 * 128

  const DMA_READ := 2
  const DMA_SKIP := 4
  const DMA_SELECT := 8
  const DMA_WRITE := 16

  datatype Acpi = NoAcpi | Acpi(tables: Bytes, rsdp: Bytes, loader: Bytes, cpuCount: nat)

  /** The device: its items (an absent blob is empty) and its stream position and counters. */
  datatype Config = Config(
    kernel: Bytes, initrd: Bytes, cmdline: Bytes, acpi: Acpi, ramBytes: nat,
    selector: nat, offset: nat, fwReads: nat, bootReads: seq<nat>)

  predicate Formed(c: Config) {
    && |c.bootReads| == 3 && c.offset <= LAST32 && c.fwReads <= LAST32
    && (forall i | 0 <= i < 3 :: c.bootReads[i] <= LAST32)
    && |c.kernel| <= BLOB_LIMIT && |c.initrd| <= BLOB_LIMIT && |c.cmdline| <= 4096 && c.ramBytes <= LAST32
    && (c.acpi.Acpi? ==> |c.acpi.rsdp| == 36 && |c.acpi.loader| == LOADER_BYTES && c.acpi.cpuCount <= 32
                         && |c.acpi.tables| <= LAST32)
  }

  function ByteOf(v: nat, k: nat): uint8
    requires k < 8
  {
    var shifted := if k == 0 then v else if k == 1 then v / 0x100 else if k == 2 then v / 0x1_0000
                   else if k == 3 then v / 0x100_0000 else if k == 4 then v / 0x1_0000_0000
                   else if k == 5 then v / 0x100_0000_0000 else if k == 6 then v / 0x1_0000_0000_0000
                   else v / 0x100_0000_0000_0000;
    (shifted % 0x100) as uint8
  }

  function Peek(data: Bytes, off: nat): uint8 { if off < |data| then data[off] else 0 }

  function SizeByte(size: nat, off: nat): uint8 { if off < 4 then ByteOf(size, off) else 0 }

  function NameByte(entry: nat, i: nat): uint8
    requires entry < 4
  {
    var name := ["etc/e820", "etc/acpi/tables", "etc/acpi/rsdp", "etc/table-loader"][entry];
    if i < |name| && name[i] as int < 256 then (name[i] as int) as uint8 else 0
  }

  /** The file directory: a big-endian count, then 64-byte records. */
  function DirectoryByte(c: Config, off: nat): uint8 {
    var count := if c.acpi.Acpi? then 4 else 1;
    if off < 4 then if off == 3 then count as uint8 else 0
    else
      var entry, col := (off - 4) / 64, (off - 4) % 64;
      if entry >= count then 0
      else
        var size := if entry == 0 then 80
                    else if entry == 1 then |c.acpi.tables|
                    else if entry == 2 then 36
                    else LOADER_BYTES;
        if col < 4 then ByteOf(size, 3 - col)
        else if col == 5 then (0x20 + entry) as uint8
        else if col >= 8 then NameByte(entry, col - 8)
        else 0
  }

  /** The memory map: four rows of start, size and type. */
  function MapByte(c: Config, off: nat): uint8
    requires off < 80
  {
    var row, col := off / 20, off % 20;
    var start := [0, 0xa_0000, 0x10_0000, 0xffc0_0000][row];
    var size := if row == 0 then 0xa_0000 else if row == 1 then 0x6_0000
                else if row == 3 then 0x40_0000 else if c.ramBytes >= 0x10_0000 then c.ramBytes - 0x10_0000 else 0;
    if col < 8 then ByteOf(start, col)
    else if col < 16 then ByteOf(size, col - 8)
    else if col == 16 then if row == 0 || row == 2 then 1 else 2
    else 0
  }

  /** The boot blob behind a selector: its number and contents. */
  function Blob(c: Config): (nat, Bytes) {
    if c.selector == 0x11 then (0, c.kernel) else if c.selector == 0x12 then (1, c.initrd)
    else if c.selector == 0x15 then (2, c.cmdline) else (3, [])
  }

  /** fw_byte: the byte of the selected item at an offset. */
  function FwByte(c: Config, off: nat): uint8 {
    var s := c.selector;
    if Blob(c).0 < 3 then Peek(Blob(c).1, off)
    else if s == 8 then SizeByte(|c.kernel|, off)
    else if s == 0xb then SizeByte(|c.initrd|, off)
    else if s == 0x14 then SizeByte(|c.cmdline|, off)
    else if s == 0x21 then if c.acpi.Acpi? then Peek(c.acpi.tables, off) else 0
    else if s == 0x22 then if c.acpi.Acpi? then Peek(c.acpi.rsdp, off) else 0
    else if s == 0x23 then if c.acpi.Acpi? then Peek(c.acpi.loader, off) else 0
    else if s == 0 then Peek([0x51, 0x45, 0x4d, 0x55], off)
    else if s == 1 then if off == 0 then 3 else 0
    else if s == 3 then SizeByte(c.ramBytes, off)
    else if s == 5 || s == 0xf then
      if off != 0 then 0 else if c.acpi.Acpi? then (c.acpi.cpuCount % 0x100) as uint8 else 1
    else if s == 0x19 then DirectoryByte(c, off)
    else if s == 0x20 && off < 80 then MapByte(c, off)
    else 0
  }

  function Saturate(n: nat): nat { if n > LAST32 then LAST32 else n }

  /** Counting k bytes of blob b as consumed. */
  function Counted(counts: seq<nat>, b: nat, k: nat): seq<nat>
    requires |counts| == 3
  {
    if b < 3 then counts[b := Saturate(counts[b] + k)] else counts
  }

  /** One byte from port 0x511. */
  function PortRead(c: Config): (Config, uint8)
    requires Formed(c)
  {
    var (b, data) := Blob(c);
    (c.(bootReads := Counted(c.bootReads, b, if c.offset < |data| then 1 else 0),
        offset := Saturate(c.offset + 1), fwReads := Saturate(c.fwReads + 1)),
     FwByte(c, c.offset))
  }

  lemma PortReadFormed(c: Config)
    requires Formed(c)
    ensures Formed(PortRead(c).0)
  {
    hide FwByte;
  }

  function PortReads(c: Config, n: nat): (r: (Config, Bytes))
    requires Formed(c)
    ensures Formed(r.0) && |r.1| == n
  {
    if n == 0 then (c, [])
    else
      var (d, bytes) := PortReads(c, n - 1);
      PortReadFormed(d);
      (PortRead(d).0, bytes + [PortRead(d).1])
  }

  function Selected(c: Config, selector: nat): Config { c.(selector := selector, offset := 0) }

  /** Which DMA commands are accepted: exactly one of read, skip and write, and no write. */
  predicate Accepts(c: Config, control: nat, length: nat) {
    && 0 < length <= BLOB_LIMIT && control % 2 == 0 && control / 32 % 0x800 == 0
    && (control / DMA_READ % 2) + (control / DMA_SKIP % 2) + (control / DMA_WRITE % 2) == 1
    && control / DMA_WRITE % 2 == 0
    && length <= LAST32 - (if control / DMA_SELECT % 2 == 1 then 0 else c.offset)
  }

  function AfterSelect(c: Config, control: nat): Config {
    if control / DMA_SELECT % 2 == 1 then Selected(c, control / 0x1_0000 % 0x1_0000) else c
  }

  /** The bytes a bulk read delivers: a copied stretch of a blob and zeros, or byte by byte. */
  function DmaBytes(c: Config, length: nat): (b: Bytes)
    ensures |b| == length
  {
    var (n, data) := Blob(c);
    if data != [] then
      var from := if c.offset < |data| then c.offset else |data|;
      var available := if |data| - from > length then length else |data| - from;
      data[from..from + available] + seq(length - available, _ => 0)
    else seq(length, i requires 0 <= i < length => FwByte(c, c.offset + i))
  }

  function Dma(c: Config, control: nat, length: nat): Option<(Config, Bytes)>
    requires Formed(c)
  {
    if !Accepts(c, control, length) then None
    else
      var s := AfterSelect(c, control);
      if control / DMA_READ % 2 == 0 then Some((s.(offset := s.offset + length), []))
      else
        var (b, data) := Blob(s);
        var left := if s.offset < |data| then |data| - s.offset else 0;
        var consumed := if left > length then length else left;
        Some((s.(bootReads := Counted(s.bootReads, b, consumed), fwReads := Saturate(s.fwReads + length),
                 offset := s.offset + length), DmaBytes(s, length)))
  }

  // ---- bulk reads are byte reads ---------------------------------------------------------

  lemma SaturateAdd(n: nat, k: nat)
    requires n <= LAST32
    ensures Saturate(Saturate(n + k) + 1) == Saturate(n + (k + 1)) && Saturate(Saturate(n + k)) == Saturate(n + k)
  {
  }

  /** Bytes of the blob among the first n from the current offset. */
  function Consumed(c: Config, n: nat): nat {
    var size := |Blob(c).1|;
    if c.offset >= size then 0 else if size - c.offset > n then n else size - c.offset
  }

  /** The device after n byte reads, in one formula. */
  lemma {:induction false} PortReadsClosed(c: Config, n: nat)
    requires Formed(c) && c.offset + n <= LAST32
    ensures PortReads(c, n).0 == c.(bootReads := Counted(c.bootReads, Blob(c).0, Consumed(c, n)),
                                    offset := c.offset + n, fwReads := Saturate(c.fwReads + n))
    ensures forall i | 0 <= i < n :: PortReads(c, n).1[i] == FwByte(c, c.offset + i)
    decreases n
  {
    hide FwByte, PortRead, Blob, Counted, Saturate, Consumed, Formed;
    if n == 0 {
      NoReads(c);
    } else {
      PortReadsClosed(c, n - 1);
      PortStep(c, PortReads(c, n - 1).0, n);
    }
  }

  lemma NoReads(c: Config)
    requires Formed(c)
    ensures c == c.(bootReads := Counted(c.bootReads, Blob(c).0, Consumed(c, 0)), offset := c.offset + 0,
                    fwReads := Saturate(c.fwReads + 0))
  {
  }

  lemma PortStep(c: Config, d: Config, n: nat)
    requires Formed(c) && Formed(d) && n > 0 && c.offset + n <= LAST32
    requires d == c.(bootReads := Counted(c.bootReads, Blob(c).0, Consumed(c, n - 1)),
                     offset := c.offset + (n - 1), fwReads := Saturate(c.fwReads + (n - 1)))
    ensures PortRead(d) == (c.(bootReads := Counted(c.bootReads, Blob(c).0, Consumed(c, n)),
                               offset := c.offset + n, fwReads := Saturate(c.fwReads + n)),
                            FwByte(c, c.offset + (n - 1)))
  {
    SameItem(c, d, c.offset + (n - 1));
    SaturateAdd(c.fwReads, n - 1);
    var j := if c.offset + (n - 1) < |Blob(c).1| then 1 else 0;
    CountTwice(c.bootReads, Blob(c).0, Consumed(c, n - 1), j);
    assert Consumed(c, n) == Consumed(c, n - 1) + j;
    hide FwByte, Blob, Consumed, Counted;
  }

  lemma CountTwice(counts: seq<nat>, b: nat, k: nat, j: nat)
    requires |counts| == 3 && (forall i | 0 <= i < 3 :: counts[i] <= LAST32) && j <= 1
    ensures Counted(Counted(counts, b, k), b, j) == Counted(counts, b, k + j)
  {
    if b < 3 {
      SaturateAdd(counts[b], k);
    }
  }

  /** The items do not depend on the counters. */
  lemma SameItem(c: Config, d: Config, off: nat)
    requires d == c.(bootReads := d.bootReads, offset := d.offset, fwReads := d.fwReads)
    ensures FwByte(d, off) == FwByte(c, off) && Blob(d) == Blob(c)
  {
    hide Peek, SizeByte, ByteOf, NameByte;
  }

  lemma DmaBytesAre(c: Config, length: nat, i: nat)
    requires i < length
    ensures DmaBytes(c, length)[i] == FwByte(c, c.offset + i)
  {
    var (n, data) := Blob(c);
    if data != [] {
      assert n < 3;
    }
    hide SizeByte, ByteOf, NameByte, DirectoryByte, MapByte;
  }

  /** A bulk read delivers the same bytes, and leaves the same device, as selecting the
      item and reading it that many times through the port. */
  lemma DmaIsReads(c: Config, control: nat, length: nat)
    requires Formed(c) && Accepts(c, control, length) && control / DMA_READ % 2 == 1
    ensures Formed(AfterSelect(c, control))
    ensures Dma(c, control, length) == Some(PortReads(AfterSelect(c, control), length))
  {
    hide FwByte, DmaBytes, PortReads, Counted, Saturate, Blob;
    var s := AfterSelect(c, control);
    PortReadsClosed(s, length);
    forall i | 0 <= i < length
      ensures DmaBytes(s, length)[i] == PortReads(s, length).1[i]
    {
      DmaBytesAre(s, length, i);
    }
    assert DmaBytes(s, length) == PortReads(s, length).1;
  }
}

/** REP INSB from fw_cfg into guest memory, in page-sized runs. */
module StringIo {
  import opened Machine
  import opened Modular
  import opened Limbs
  import opened PageWalk
  import opened FwCfg

  const BATCH := 16384
  const LAST64 := 0xffff_ffff_ffff_ffff

  // ---- the transfer one byte at a time -----------------------------------------------------

  /** A transfer: the page tables it starts from and its direction. */
  datatype Job = Job(ram: Bytes, cr3: nat, address: nat, backwards: bool)

  function Va(t: Job, i: nat): nat
    requires t.backwards ==> i <= t.address
  {
    if t.backwards then t.address - i else t.address + i
  }

  /** The walk of byte i over the initial page tables. */
  function WalkOf(t: Job, i: nat): Option<Walked> {
    if t.backwards && i > t.address then None else Walk(t.ram, t.cr3, Va(t, i), true, false)
  }

  predicate Mapped(t: Job, i: nat) { WalkOf(t, i).Some? && WalkOf(t, i).value.physical < |t.ram| }

  function Way(t: Job, i: nat): (w: Walked)
    requires Mapped(t, i)
    ensures 3 <= |w.entries| <= 4 && w.physical < |t.ram|
    ensures forall k | 0 <= k < |w.entries| :: w.entries[k] + 8 <= |t.ram|
  {
    WalkOf(t, i).value
  }

  predicate AllMapped(t: Job, n: nat) { forall i | 0 <= i < n :: Mapped(t, i) }

  /** Accessed and dirty bits of a page-table entry's low byte. */
  function Or(b: uint8, accessed: bool, dirty: bool): uint8 {
    var a := if accessed && b as nat / 0x20 % 2 == 0 then b as nat + 0x20 else b as nat;
    (if dirty && b as nat / 0x40 % 2 == 0 then a + 0x40 else a) as uint8
  }

  function EntriesOf(w: Walked): set<nat> { set k | 0 <= k < |w.entries| :: w.entries[k] }

  /** Entries visited, and leaves written through, by the first n bytes. */
  function Visited(t: Job, n: nat): set<nat>
    requires AllMapped(t, n)
  {
    if n == 0 then {} else assert Mapped(t, n - 1); Visited(t, n - 1) + EntriesOf(Way(t, n - 1))
  }

  function Leaves(t: Job, n: nat): set<nat>
    requires AllMapped(t, n)
  {
    if n == 0 then {} else assert Mapped(t, n - 1); Leaves(t, n - 1) + {LeafEntry(Way(t, n - 1))}
  }

  function LeafEntry(w: Walked): nat
    requires |w.entries| > 0
  {
    w.entries[|w.entries| - 1]
  }

  function Marked(ram: Bytes, accessed: set<nat>, dirty: set<nat>): (r: Bytes)
    ensures |r| == |ram|
  {
    seq(|ram|, x requires 0 <= x < |ram| => Or(ram[x], x in accessed, x in dirty))
  }

  /** The first n bytes stored in order. */
  function Stored(t: Job, ram: Bytes, bytes: Bytes, n: nat): (r: Bytes)
    requires AllMapped(t, n) && n <= |bytes| && |ram| == |t.ram|
    ensures |r| == |ram|
  {
    if n == 0 then ram
    else assert Mapped(t, n - 1); Stored(t, ram, bytes, n - 1)[Way(t, n - 1).physical := bytes[n - 1]]
  }

  /** All marks, then all bytes. */
  function Transferred(t: Job, bytes: Bytes, n: nat): Bytes
    requires AllMapped(t, n) && n <= |bytes|
  {
    Stored(t, Marked(t.ram, Visited(t, n), Leaves(t, n)), bytes, n)
  }

  // ---- runs inside one page ----------------------------------------------------------------------

  /** Bytes [start, start + length) go to consecutive physical bytes through one leaf. */
  datatype Segment = Segment(physical: nat, start: nat, length: nat, walk: Walked)

  function Place(t: Job, s: Segment, j: nat): int {
    if t.backwards then s.physical - j else s.physical + j
  }

  ghost predicate Covers(t: Job, s: Segment) {
    forall j: nat | j < s.length ::
      && 0 <= Place(t, s, j) < |t.ram|
      && WalkOf(t, s.start + j) == Some(Walked(s.walk.entries, Place(t, s, j)))
  }

  lemma NearForward(va: nat, j: nat, p: nat)
    requires p > 0 && Low(va, p) + j < p
    ensures High(va + j, p) == High(va, p) && Low(va + j, p) == Low(va, p) + j
  {
    DivModUnique(va + j, va / p, va % p + j, p);
  }

  lemma NearBackward(va: nat, j: nat, p: nat)
    requires p > 0 && j <= Low(va, p)
    ensures j <= va && High(va - j, p) == High(va, p) && Low(va - j, p) == Low(va, p) - j
  {
    assert va / p * p >= 0;
    DivModUnique(va - j, va / p, va % p - j, p);
  }

  /** Every byte of a run walks as the first one does. */
  lemma ForwardCovers(t: Job, i: nat, run: nat, p: nat)
    requires !t.backwards && WalkOf(t, i).Some? && p == Leaf(WalkOf(t, i).value, 4)
    requires p > 0 && Low(Va(t, i), p) + run <= p && WalkOf(t, i).value.physical + run <= |t.ram|
    ensures Covers(t, Segment(WalkOf(t, i).value.physical, i, run, WalkOf(t, i).value))
  {
    hide Leaf, Low, High, Walk;
    var w, va := WalkOf(t, i).value, Va(t, i);
    var s := Segment(w.physical, i, run, w);
    forall j: nat | j < run
      ensures 0 <= Place(t, s, j) < |t.ram| && WalkOf(t, i + j) == Some(Walked(w.entries, Place(t, s, j)))
    {
      NearForward(va, j, p);
      WalkSamePage(t.ram, t.cr3, va, va + j, true, false);
    }
  }

  lemma BackwardCovers(t: Job, i: nat, run: nat, p: nat)
    requires t.backwards && i <= t.address && WalkOf(t, i).Some? && p == Leaf(WalkOf(t, i).value, 4)
    requires p > 0 && run <= Low(Va(t, i), p) + 1 && run <= WalkOf(t, i).value.physical + 1
             && WalkOf(t, i).value.physical < |t.ram|
    ensures Covers(t, Segment(WalkOf(t, i).value.physical, i, run, WalkOf(t, i).value))
  {
    hide Leaf, Low, High, Walk;
    var w, va := WalkOf(t, i).value, Va(t, i);
    var s := Segment(w.physical, i, run, w);
    forall j: nat | j < run
      ensures 0 <= Place(t, s, j) < |t.ram| && WalkOf(t, i + j) == Some(Walked(w.entries, Place(t, s, j)))
    {
      NearBackward(va, j, p);
      WalkSamePage(t.ram, t.cr3, va, va - j, true, false);
    }
  }

  // ---- which transfers are accepted ---------------------------------------------------------------

  /** Bytes of the page byte i goes to. */
  function PageAt(t: Job, i: nat): (p: nat)
    requires Mapped(t, i)
    ensures p > 0
  {
    Leaf(Way(t, i), 4)
  }

  /** Bytes from byte i on that stay in its page. */
  function RunAt(t: Job, i: nat, n: nat): (run: nat)
    requires Mapped(t, i) && i < n
    ensures 0 < run <= n - i
  {
    var low := Low(Va(t, i), PageAt(t, i));
    var available := if t.backwards then low + 1 else PageAt(t, i) - low;
    if available > n - i then n - i else available
  }

  /** Byte i is the first of the transfer, or of its page. */
  predicate Starts(t: Job, i: nat)
    requires Mapped(t, i)
  {
    i == 0 || High(Va(t, i), PageAt(t, i)) != High(Va(t, i - 1), PageAt(t, i))
  }

  /** Byte i is mapped, and if it starts a page the run of its bytes there passes the range
      test, which counts upwards from byte i in both directions. */
  predicate Passes(t: Job, i: nat, n: nat) {
    Mapped(t, i) && (i < n && Starts(t, i) ==> Way(t, i).physical + RunAt(t, i, n) <= |t.ram|)
  }

  predicate AllPass(t: Job, m: nat, n: nat) { forall i | 0 <= i < m :: Passes(t, i, n) }

  /** Forwards the range test refuses nothing but unmapped bytes. */
  lemma ForwardPasses(t: Job, n: nat)
    requires !t.backwards
    ensures AllPass(t, n, n) <==> AllMapped(t, n)
  {
    hide WalkOf, Way, PageAt;
    if AllMapped(t, n) {
      forall i | 0 <= i < n
        ensures Passes(t, i, n)
      {
        assert Mapped(t, i);
        var k := RunAt(t, i, n) - 1;
        assert Mapped(t, i + k);
        AheadOf(t, i, k);
      }
    } else {
      var i: nat :| i < n && !Mapped(t, i);
      assert !Passes(t, i, n);
    }
  }

  /** Where byte i + j goes, if it is still in the page of byte i. */
  lemma AheadOf(t: Job, i: nat, j: nat)
    requires !t.backwards && Mapped(t, i) && Low(Va(t, i), PageAt(t, i)) + j < PageAt(t, i) && Mapped(t, i + j)
    ensures Way(t, i + j).physical == Way(t, i).physical + j
  {
    hide Leaf, Low, High, Walk;
    NearForward(Va(t, i), j, PageAt(t, i));
    WalkSamePage(t.ram, t.cr3, Va(t, i), Va(t, i) + j, true, false);
  }

  /** In the direction of travel byte i comes first in its 4 KiB page. */
  predicate OnEdge(t: Job, i: nat)
    requires t.backwards ==> i <= t.address
  {
    (Va(t, i) + if t.backwards then 1 else 0) % 0x1000 == 0
  }

  /** Byte i lies outside the page byte i - 1 went to. */
  predicate Turned(t: Job, i: nat)
    requires t.backwards ==> i <= t.address
  {
    && i > 0 && Mapped(t, i - 1) && OnEdge(t, i)
    && var p := PageAt(t, i - 1);
       High(Va(t, i), p) != High(Va(t, i - 1), p)
  }

  lemma EdgeUp(va: nat, p: nat, q: nat)
    requires p == 0x1000 * q && q > 0
    ensures var run := p - Low(va, p);
            && High(va + run, p) == High(va, p) + 1 && High(va + (run - 1), p) == High(va, p)
            && (va + run) % 0x1000 == 0 && (va % 0x1000 == 0 ==> run >= 0x1000)
  {
    var h, l := va / p, va % p;
    assert va == h * p + l;
    DivModUnique(va + (p - l), h + 1, 0, p);
    DivModUnique(va + (p - l - 1), h, p - 1, p);
    SmallPagesUp(va, h, l, q);
  }

  lemma SmallPagesUp(va: nat, h: nat, l: nat, q: nat)
    requires va == h * (0x1000 * q) + l && l < 0x1000 * q
    ensures (va + (0x1000 * q - l)) % 0x1000 == 0 && (va % 0x1000 == 0 ==> 0x1000 * q - l >= 0x1000)
  {
    var k := h * q;
    assert h * (0x1000 * q) == 0x1000 * k;
    assert va + (0x1000 * q - l) == 0x1000 * (k + q);
  }

  lemma EdgeDown(va: nat, p: nat, q: nat)
    requires p == 0x1000 * q && q > 0 && Low(va, p) < va
    ensures var run := Low(va, p) + 1;
            && run <= va && High(va - run, p) + 1 == High(va, p) && High(va - (run - 1), p) == High(va, p)
            && (va - run + 1) % 0x1000 == 0 && ((va + 1) % 0x1000 == 0 ==> run >= 0x1000)
  {
    var h, l := va / p, va % p;
    assert va == h * p + l && h > 0;
    DivModUnique(va - (l + 1), h - 1, p - 1, p);
    DivModUnique(va - l, h, 0, p);
    SmallPages(va, h, l, q);
  }

  lemma SmallPages(va: nat, h: nat, l: nat, q: nat)
    requires va == h * (0x1000 * q) + l
    ensures (va - l) % 0x1000 == 0 && ((va + 1) % 0x1000 == 0 ==> l + 1 >= 0x1000)
  {
    assert h * (0x1000 * q) == 0x1000 * (h * q);
  }

  lemma PageIs(t: Job, i: nat) returns (q: nat)
    requires Mapped(t, i)
    ensures q > 0 && PageAt(t, i) == 0x1000 * q
  {
    q := if |Way(t, i).entries| == 3 then 0x200 else 1;
  }

  /** A run that stops before the transfer does stops at the end of its page. */
  lemma RunEnds(t: Job, i: nat, n: nat)
    requires Mapped(t, i) && i < n && (t.backwards ==> n <= t.address) && i + RunAt(t, i, n) < n
    ensures var j := i + RunAt(t, i, n);
            && High(Va(t, j), PageAt(t, i)) != High(Va(t, j - 1), PageAt(t, i)) && OnEdge(t, j)
            && (OnEdge(t, i) ==> RunAt(t, i, n) >= 0x1000)
  {
    hide WalkOf, Way, PageAt, Mapped, High, Low;
    var va, p := Va(t, i), PageAt(t, i);
    var q := PageIs(t, i);
    if t.backwards {
      assert RunAt(t, i, n) == Low(va, p) + 1;
      EdgeDown(va, p, q);
    } else {
      assert RunAt(t, i, n) == p - Low(va, p);
      EdgeUp(va, p, q);
    }
  }

  lemma NewStart(t: Job, i: nat)
    requires i > 0 && Mapped(t, i) && Turned(t, i)
    ensures Starts(t, i)
  {
    hide High, Low, Walk;
    if !Starts(t, i) {
      WalkSamePage(t.ram, t.cr3, Va(t, i), Va(t, i - 1), true, false);
    }
  }

  predicate SameLeaf(t: Job, i: nat, k: nat) {
    Mapped(t, i) && Mapped(t, k) && Way(t, i).entries == Way(t, k).entries
  }

  /** Byte i + j is still in the run that starts at byte i. */
  predicate Inside(t: Job, i: nat, j: nat, n: nat) {
    Mapped(t, i) && i < n && j < RunAt(t, i, n)
  }

  predicate Follows(t: Job, i: nat) { Mapped(t, i) && !Starts(t, i) }

  lemma NoStart(t: Job, i: nat, j: nat, n: nat)
    requires i < n && (t.backwards ==> n <= t.address) && SameLeaf(t, i, i + j)
    requires 0 < j && Inside(t, i, j, n)
    ensures Follows(t, i + j)
  {
    hide High, Low, Walk, WalkOf, Mapped;
    var va, p := Va(t, i), PageAt(t, i);
    if t.backwards {
      NearBackward(va, j, p);
      NearBackward(va, j - 1, p);
    } else {
      NearForward(va, j, p);
      NearForward(va, j - 1, p);
    }
  }

  /** The bytes of a run pass with its first byte. */
  lemma RunPasses(t: Job, s: Segment, n: nat)
    requires Covers(t, s) && Mapped(t, s.start) && s.start < n && s.length == RunAt(t, s.start, n)
    requires (t.backwards ==> n <= t.address) && Passes(t, s.start, n) && AllPass(t, s.start, n)
    requires Way(t, s.start).entries == s.walk.entries
    ensures AllPass(t, s.start + s.length, n)
  {
    hide Covers, WalkOf, Way, Mapped, PageAt, Starts, RunAt;
    forall k: nat | 0 <= k < s.start + s.length
      ensures Passes(t, k, n)
    {
      if k > s.start {
        CoveredWay(t, s, k - s.start);
        assert Inside(t, s.start, k - s.start, n);
        NoStart(t, s.start, k - s.start, n);
      }
    }
  }

  // ---- the plan: segments and the table of entries ---------------------------------------------

  function End(segs: seq<Segment>, k: nat): nat
    requires k <= |segs|
  {
    if k == 0 then 0 else segs[k - 1].start + segs[k - 1].length
  }

  /** Segments that cover the first n bytes one after another. */
  ghost predicate Planned(t: Job, n: nat, segs: seq<Segment>) {
    End(segs, |segs|) == n && forall k: nat | k < |segs| :: Linked(t, segs, k)
  }

  /** Segment k is not empty, continues where the last one ended, and covers its bytes. */
  ghost predicate Linked(t: Job, segs: seq<Segment>, k: nat) {
    k < |segs| && segs[k].length > 0 && segs[k].start == End(segs, k) && Covers(t, segs[k])
  }

  lemma CoveredMapped(t: Job, s: Segment, n: nat)
    requires Covers(t, s) && AllMapped(t, s.start) && n == s.start + s.length
    ensures AllMapped(t, n)
  {
    forall i | 0 <= i < n
      ensures Mapped(t, i)
    {
      if i >= s.start {
        assert 0 <= Place(t, s, i - s.start) < |t.ram|;
      }
    }
  }

  /** A run adds the entries of its one walk. */
  lemma {:induction false} RunVisits(t: Job, s: Segment, j: nat)
    requires Covers(t, s) && 0 < j <= s.length && AllMapped(t, s.start) && AllMapped(t, s.start + j)
             && |s.walk.entries| > 0
    ensures Visited(t, s.start + j) == Visited(t, s.start) + EntriesOf(s.walk)
    ensures Leaves(t, s.start + j) == Leaves(t, s.start) + {LeafEntry(s.walk)}
    decreases j
  {
    hide WalkOf, Way, EntriesOf, Covers, Visited, Leaves, Mapped;
    var i := s.start + (j - 1);
    CoveredWay(t, s, j - 1);
    VisitStep(t, i);
    SameEntries(Way(t, i), s.walk);
    if j > 1 {
      RunVisits(t, s, j - 1);
    }
  }

  lemma CoveredWay(t: Job, s: Segment, j: nat)
    requires Covers(t, s) && j < s.length
    ensures 0 <= Place(t, s, j) < |t.ram| && Mapped(t, s.start + j)
    ensures Way(t, s.start + j) == Walked(s.walk.entries, Place(t, s, j))
  {
    hide Walk;
  }

  lemma VisitStep(t: Job, n: nat)
    requires AllMapped(t, n + 1)
    ensures AllMapped(t, n) && Mapped(t, n)
    ensures Visited(t, n + 1) == Visited(t, n) + EntriesOf(Way(t, n))
    ensures Leaves(t, n + 1) == Leaves(t, n) + {LeafEntry(Way(t, n))}
  {
    hide Mapped, Way, EntriesOf;
  }

  lemma SameEntries(a: Walked, b: Walked)
    requires a.entries == b.entries
    ensures EntriesOf(a) == EntriesOf(b)
  {
  }

  predicate Distinct(entries: seq<nat>) { forall i, j | 0 <= i < j < |entries| :: entries[i] != entries[j] }

  function Listed(entries: seq<nat>): set<nat> { set k | 0 <= k < |entries| :: entries[k] }

  function Flagged(entries: seq<nat>, dirty: seq<bool>): set<nat>
    requires |entries| == |dirty|
  {
    set k | 0 <= k < |entries| && dirty[k] :: entries[k]
  }

  /** One level of a walk entered into the table: found or appended, and flagged if a leaf. */
  method AddEntry(entries: seq<nat>, dirty: seq<bool>, e: nat, leaf: bool)
    returns (ok: bool, es: seq<nat>, ds: seq<bool>)
    requires |entries| == |dirty| && Distinct(entries)
    ensures |es| == |ds| <= |entries| + 1 && (ok <==> e in entries || |entries| != 32)
    ensures ok ==> Distinct(es) && Listed(es) == Listed(entries) + {e}
    ensures ok ==> Flagged(es, ds) == Flagged(entries, dirty) + if leaf then {e} else {}
  {
    es, ds := entries, dirty;
    var j := 0;
    while j < |entries| && entries[j] != e
      invariant j <= |entries| && forall k | 0 <= k < j :: entries[k] != e
    {
      j := j + 1;
    }
    if j == |entries| {
      if |entries| == 32 {
        return false, es, ds;
      }
      es, ds := entries + [e], dirty + [false];
      Appended(entries, dirty, e);
    }
    ok := true;
    if leaf {
      ghost var before := ds;
      ds := ds[j := true];
      FlagSet(es, before, j);
    } else {
      assert Flagged(es, ds) == Flagged(entries, dirty) + {};
    }
    assert e in Listed(es);
  }

  lemma Appended(entries: seq<nat>, dirty: seq<bool>, e: nat)
    requires |entries| == |dirty|
    ensures Listed(entries + [e]) == Listed(entries) + {e}
    ensures Flagged(entries + [e], dirty + [false]) == Flagged(entries, dirty)
  {
    var es, ds := entries + [e], dirty + [false];
    forall x
      ensures x in Listed(es) <==> x in Listed(entries) || x == e
    {
      if x in Listed(entries) {
        var k :| 0 <= k < |entries| && entries[k] == x;
        assert es[k] == x;
      }
      assert es[|entries|] == e;
    }
    forall x
      ensures x in Flagged(es, ds) <==> x in Flagged(entries, dirty)
    {
      if x in Flagged(entries, dirty) {
        var k :| 0 <= k < |entries| && dirty[k] && entries[k] == x;
        assert es[k] == x && ds[k];
      }
      if x in Flagged(es, ds) {
        var k :| 0 <= k < |es| && ds[k] && es[k] == x;
        assert dirty[k] && entries[k] == x;
      }
    }
  }

  lemma FlagSet(es: seq<nat>, ds: seq<bool>, j: nat)
    requires |es| == |ds| && j < |es|
    ensures Flagged(es, ds[j := true]) == Flagged(es, ds) + {es[j]}
  {
    var fs := ds[j := true];
    forall x
      ensures x in Flagged(es, fs) <==> x in Flagged(es, ds) || x == es[j]
    {
      if x in Flagged(es, ds) {
        var k :| 0 <= k < |es| && ds[k] && es[k] == x;
        assert fs[k];
      }
      assert fs[j];
      if x in Flagged(es, fs) {
        var k :| 0 <= k < |es| && fs[k] && es[k] == x;
        assert k == j || ds[k];
      }
    }
  }

  /** All levels of one walk. */
  method AddWalk(entries: seq<nat>, dirty: seq<bool>, w: Walked) returns (ok: bool, es: seq<nat>, ds: seq<bool>)
    requires |entries| == |dirty| && Distinct(entries) && |w.entries| > 0
    ensures |es| == |ds| && (|entries| + |w.entries| <= 32 ==> ok && |es| <= |entries| + |w.entries|)
    ensures ok ==> Distinct(es) && Listed(es) == Listed(entries) + EntriesOf(w)
    ensures ok ==> Flagged(es, ds) == Flagged(entries, dirty) + {LeafEntry(w)}
  {
    es, ds, ok := entries, dirty, true;
    for level := 0 to |w.entries|
      invariant |es| == |ds| <= |entries| + level && Distinct(es) && ok
      invariant Listed(es) == Listed(entries) + Listed(w.entries[..level])
      invariant Flagged(es, ds) == Flagged(entries, dirty) + if level == |w.entries| then {LeafEntry(w)} else {}
    {
      ok, es, ds := AddEntry(es, ds, w.entries[level], level + 1 == |w.entries|);
      if !ok {
        return;
      }
      assert w.entries[..level + 1] == w.entries[..level] + [w.entries[level]];
      Appended(w.entries[..level], seq(level, _ => false), w.entries[level]);
    }
    assert w.entries[..|w.entries|] == w.entries;
  }

  /** The table holds exactly the entries and leaves of the first n bytes. */
  ghost predicate Tabled(t: Job, n: nat, entries: seq<nat>, dirty: seq<bool>)
    requires AllMapped(t, n)
  {
    && |entries| == |dirty| && Distinct(entries)
    && Listed(entries) == Visited(t, n) && Flagged(entries, dirty) == Leaves(t, n)
  }

  /** The validating loop: nothing is written, every leaf is checked once. */
  method Plan(t: Job, n: nat) returns (ok: bool, segs: seq<Segment>, entries: seq<nat>, dirty: seq<bool>)
    requires (if t.backwards then n <= t.address else t.address + n <= LAST64) && n <= BATCH
    ensures ok <==> AllPass(t, n, n)
    ensures ok ==> Planned(t, n, segs) && AllMapped(t, n) && Tabled(t, n, entries, dirty)
  {
    hide Tabled, Covers, Planned, AllMapped, AllPass, WalkOf, Walk, Way, RunAt, Turned, OnEdge;
    segs, entries, dirty, ok := [], [], [], true;
    PlanStart(t, n);
    var i := 0;
    while i < n
      invariant ok && i <= n && Planned(t, i, segs) && AllMapped(t, i) && Tabled(t, i, entries, dirty)
      invariant AllPass(t, i, n) && |entries| <= 4 * |segs| && (i == 0 ==> segs == [])
      invariant 0 < i < n ==> Turned(t, i) && OnEdge(t, i) && (|segs| - 1) * 0x1000 < i
      decreases n - i
    {
      var walk := Walk(t.ram, t.cr3, Va(t, i), true, false);
      WalkIs(t, i);
      if walk.None? || walk.value.physical >= |t.ram| {
        NotPassing(t, i, n);
        return false, segs, entries, dirty;
      }
      var w := walk.value;
      if i > 0 {
        NewStart(t, i);
      }
      var run := Run(t, i, n, w);
      if run == 0 {
        NotPassing(t, i, n);
        return false, segs, entries, dirty;
      }
      assert |segs| < 5;  // so neither the segments nor the entries run out of room
      var s := Segment(w.physical, i, run, w);
      RunPasses(t, s, n);
      var es, ds;
      ok, es, ds := Extend(t, segs, entries, dirty, s);
      if i + run < n {
        RunTurns(t, s, n);
      }
      segs, entries, dirty, i := segs + [s], es, ds, i + run;
    }
  }

  lemma WalkIs(t: Job, i: nat)
    requires t.backwards ==> i <= t.address
    ensures WalkOf(t, i) == Walk(t.ram, t.cr3, Va(t, i), true, false)
    ensures Mapped(t, i) ==> Some(Way(t, i)) == WalkOf(t, i)
  {
    hide Walk;
  }

  lemma NotPassing(t: Job, i: nat, n: nat)
    requires i < n && !Passes(t, i, n)
    ensures !AllPass(t, n, n)
  {
  }

  lemma RunTurns(t: Job, s: Segment, n: nat)
    requires Covers(t, s) && Mapped(t, s.start) && s.start < n && s.length == RunAt(t, s.start, n)
    requires (t.backwards ==> n <= t.address) && s.start + s.length < n && Way(t, s.start).entries == s.walk.entries
    ensures Turned(t, s.start + s.length) && OnEdge(t, s.start + s.length)
    ensures OnEdge(t, s.start) ==> s.length >= 0x1000
  {
    hide Covers, WalkOf, Way, Mapped, OnEdge, RunAt;
    RunEnds(t, s.start, n);
    CoveredWay(t, s, s.length - 1);
  }

  lemma PlanStart(t: Job, n: nat)
    ensures Planned(t, 0, []) && AllMapped(t, 0) && Tabled(t, 0, [], []) && AllPass(t, 0, n)
  {
  }

  /** Length of the run that starts at byte i; zero when it leaves RAM. */
  method Run(t: Job, i: nat, n: nat, w: Walked) returns (run: nat)
    requires i < n && (t.backwards ==> n <= t.address) && WalkOf(t, i) == Some(w) && w.physical < |t.ram|
    ensures run == if w.physical + RunAt(t, i, n) <= |t.ram| then RunAt(t, i, n) else 0
    ensures run > 0 ==> Covers(t, Segment(w.physical, i, run, w))
  {
    hide Walk, Covers;
    var page := if |w.entries| == 3 then 0x20_0000 else 0x1000;
    var offset := Low(Va(t, i), page);
    var available := if t.backwards then offset + 1 else page - offset;
    run := if available > n - i then n - i else available;
    WalkSamePage(t.ram, t.cr3, Va(t, i), Va(t, i), true, false);
    if w.physical + run > |t.ram| || (t.backwards && w.physical + 1 < run) {
      return 0;
    }
    if t.backwards {
      BackwardCovers(t, i, run, page);
    } else {
      ForwardCovers(t, i, run, page);
    }
  }

  method Extend(t: Job, segs: seq<Segment>, entries: seq<nat>, dirty: seq<bool>, s: Segment)
    returns (ok: bool, es: seq<nat>, ds: seq<bool>)
    requires Planned(t, s.start, segs) && AllMapped(t, s.start) && Tabled(t, s.start, entries, dirty)
    requires s.length > 0 && Covers(t, s) && 0 < |s.walk.entries| <= 4
    ensures |entries| <= 28 ==> ok && |es| <= |entries| + 4
    ensures ok ==> Planned(t, s.start + s.length, segs + [s]) && AllMapped(t, s.start + s.length)
    ensures ok ==> Tabled(t, s.start + s.length, es, ds)
  {
    hide Planned, Covers, AllMapped, EntriesOf, Visited, Leaves, Listed, Flagged, Distinct;
    CoveredMapped(t, s, s.start + s.length);
    RunVisits(t, s, s.length);
    Grown(t, segs, s);
    ok, es, ds := AddWalk(entries, dirty, s.walk);
  }

  lemma Grown(t: Job, segs: seq<Segment>, s: Segment)
    requires Planned(t, s.start, segs) && s.length > 0 && Covers(t, s)
    ensures Planned(t, s.start + s.length, segs + [s])
  {
    hide Covers;
    var all := segs + [s];
    forall k: nat | k < |all|
      ensures Linked(t, all, k)
    {
      assert End(all, k) == End(segs, k);
      assert k < |segs| ==> Linked(t, segs, k);
    }
  }

  // ---- the commit -------------------------------------------------------------------------------------

  /** Accessed and dirty bits, entry by entry. */
  method Mark(ram: array<uint8>, entries: seq<nat>, dirty: seq<bool>)
    requires |entries| == |dirty| && Distinct(entries) && forall k | 0 <= k < |entries| :: entries[k] < ram.Length
    modifies ram
    ensures ram[..] == Marked(old(ram[..]), Listed(entries), Flagged(entries, dirty))
  {
    hide Or;
    for k := 0 to |entries|
      invariant forall x | 0 <= x < ram.Length ::
                  ram[x] ==
                  if x in Listed(entries[..k]) then Or(old(ram[x]), true, x in Flagged(entries, dirty))
                  else old(ram[x])
    {
      var e := entries[k];
      Membership(entries, dirty, k);
      ram[e] := Or(ram[e], true, dirty[k]);
    }
    assert entries[..|entries|] == entries;
    Unmarked(old(ram[..]), entries, dirty);
  }

  lemma Membership(entries: seq<nat>, dirty: seq<bool>, k: nat)
    requires |entries| == |dirty| && Distinct(entries) && k < |entries|
    ensures entries[k] !in Listed(entries[..k]) && (entries[k] in Flagged(entries, dirty) <==> dirty[k])
    ensures Listed(entries[..k + 1]) == Listed(entries[..k]) + {entries[k]}
  {
    assert entries[..k + 1] == entries[..k] + [entries[k]];
    Appended(entries[..k], dirty[..k], entries[k]);
  }

  lemma Unmarked(ram: Bytes, entries: seq<nat>, dirty: seq<bool>)
    requires |entries| == |dirty|
    ensures forall x | 0 <= x < |ram| :: x !in Listed(entries) ==>
              Marked(ram, Listed(entries), Flagged(entries, dirty))[x] == ram[x]
  {
  }

  method ReadBytes(fw: Config, n: nat) returns (next: Config, bytes: Bytes)
    requires Formed(fw)
    ensures (next, bytes) == PortReads(fw, n)
  {
    hide PortRead;
    next, bytes := fw, [];
    for i := 0 to n
      invariant (next, bytes) == PortReads(fw, i)
    {
      var r := PortRead(next);
      next, bytes := r.0, bytes + [r.1];
    }
  }

  /** The bytes, segment by segment. */
  method Store(ram: array<uint8>, t: Job, segs: seq<Segment>, bytes: Bytes, n: nat)
    requires Planned(t, n, segs) && AllMapped(t, n) && |bytes| == n && ram.Length == |t.ram|
    modifies ram
    ensures ram[..] == Stored(t, old(ram[..]), bytes, n)
  {
    hide Planned, Covers, AllMapped, Stored;
    ghost var first := ram[..];
    MappedLess(t, n, 0);
    StoredNone(t, first, bytes);
    EndOf(t, segs, n);
    for k := 0 to |segs|
      invariant End(segs, k) <= n && AllMapped(t, End(segs, k)) && ram[..] == Stored(t, first, bytes, End(segs, k))
    {
      Bounded(t, segs, n, k + 1);
      Segmented(t, segs, n, k);
      StoreSegment(ram, t, segs[k], bytes, n, first);
    }
  }

  lemma {:induction false} Bounded(t: Job, segs: seq<Segment>, n: nat, k: nat)
    requires Planned(t, n, segs) && k <= |segs|
    ensures End(segs, k) <= n
    decreases |segs| - k
  {
    hide Covers;
    if k < |segs| {
      Bounded(t, segs, n, k + 1);
      assert Linked(t, segs, k);
    }
  }

  lemma Segmented(t: Job, segs: seq<Segment>, n: nat, k: nat)
    requires Planned(t, n, segs) && k < |segs|
    ensures segs[k].start == End(segs, k) && Covers(t, segs[k])
  {
    assert Linked(t, segs, k);
  }

  lemma EndOf(t: Job, segs: seq<Segment>, n: nat)
    requires Planned(t, n, segs)
    ensures End(segs, |segs|) == n && End(segs, 0) == 0
  {
  }

  lemma StoredNone(t: Job, ram: Bytes, bytes: Bytes)
    requires AllMapped(t, 0) && |ram| == |t.ram|
    ensures Stored(t, ram, bytes, 0) == ram
  {
  }

  lemma MappedLess(t: Job, n: nat, m: nat)
    requires AllMapped(t, n) && m <= n
    ensures AllMapped(t, m)
  {
    hide Mapped;
  }

  method StoreSegment(ram: array<uint8>, t: Job, s: Segment, bytes: Bytes, n: nat, ghost first: Bytes)
    requires Covers(t, s) && s.start + s.length <= n == |bytes| && AllMapped(t, n) && ram.Length == |t.ram| == |first|
    requires AllMapped(t, s.start) && ram[..] == Stored(t, first, bytes, s.start)
    modifies ram
    ensures AllMapped(t, s.start + s.length) && ram[..] == Stored(t, first, bytes, s.start + s.length)
  {
    hide Covers, Way, WalkOf, Mapped;
    for j := 0 to s.length
      invariant AllMapped(t, s.start + j) && ram[..] == Stored(t, first, bytes, s.start + j)
    {
      CoveredWay(t, s, j);
      ram[Place(t, s, j)] := bytes[s.start + j];
    }
  }

  lemma EntriesInRam(t: Job, n: nat, entries: seq<nat>, dirty: seq<bool>)
    requires AllMapped(t, n) && Tabled(t, n, entries, dirty)
    ensures forall k | 0 <= k < |entries| :: entries[k] < |t.ram|
  {
    VisitedInRam(t, n);
    forall k | 0 <= k < |entries|
      ensures entries[k] < |t.ram|
    {
      assert entries[k] in Listed(entries);
    }
  }

  lemma {:induction false} VisitedInRam(t: Job, n: nat)
    requires AllMapped(t, n)
    ensures forall x | x in Visited(t, n) :: x < |t.ram|
    decreases n
  {
    if n > 0 {
      assert Mapped(t, n - 1);
      VisitedInRam(t, n - 1);
      hide WalkOf, Way, Mapped;
    }
  }

  /** aos_x86_fw_insb.  A refusal changes nothing; a success moves as many bytes as one
      batch holds, exactly as the byte-at-a-time transfer would. */
  method Insb(ram: array<uint8>, cr3: nat, fw: Config, address: nat, count: nat, backwards: bool)
    returns (ok: bool, fw': Config, address': nat, count': nat)
    requires Formed(fw) && address <= LAST64 && count <= LAST64
    modifies ram
    ensures ok <==> var n, t := if count > BATCH then BATCH else count, Job(old(ram[..]), cr3, address, backwards);
                    n == 0 || ((if backwards then n <= address else address + n <= LAST64) && AllPass(t, n, n))
    ensures !ok ==> ram[..] == old(ram[..]) && fw' == fw && address' == address && count' == count
    ensures ok ==> var n, t := if count > BATCH then BATCH else count, Job(old(ram[..]), cr3, address, backwards);
                   && (backwards ==> n <= address) && AllMapped(t, n)
                   && fw' == PortReads(fw, n).0 && ram[..] == Transferred(t, PortReads(fw, n).1, n)
                   && address' == Va(t, n) && count' == count - n
  {
    hide Or, Walk;
    ok, fw', address', count' := false, fw, address, count;
    var n := if count > BATCH then BATCH else count;
    var t := Job(ram[..], cr3, address, backwards);
    if n == 0 {
      NothingMoved(t);
      return true, fw', address', count';
    }
    if (if backwards then address < n else address > LAST64 - n) {
      return;
    }
    var planned, segs, entries, dirty := Plan(t, n);
    if !planned {
      return;
    }
    var bytes;
    ghost var before := ram[..];
    var next;
    next, bytes := ReadBytes(fw, n);
    EntriesInRam(t, n, entries, dirty);
    Mark(ram, entries, dirty);
    Store(ram, t, segs, bytes, n);
    ok, fw', address', count' := true, next, Va(t, n), count - n;
  }

  lemma NothingMoved(t: Job)
    ensures Transferred(t, [], 0) == t.ram
  {
    assert Marked(t.ram, {}, {}) == t.ram;
  }

  // ---- marks and stores interleaved --------------------------------------------------------------------

  /** Each byte marks the entries of its walk just before it is stored. */
  function Interleaved(t: Job, bytes: Bytes, n: nat): (r: Bytes)
    requires AllMapped(t, n) && n <= |bytes|
    ensures |r| == |t.ram|
  {
    if n == 0 then t.ram
    else
      assert Mapped(t, n - 1);
      var w := Way(t, n - 1);
      Marked(Interleaved(t, bytes, n - 1), EntriesOf(w), {LeafEntry(w)})[w.physical := bytes[n - 1]]
  }

  /** The last of the first n bytes that was stored at x. */
  function LastAt(t: Job, x: nat, n: nat): (k: Option<nat>)
    requires AllMapped(t, n)
    ensures k.Some? ==> k.value < n
  {
    if n == 0 then None
    else assert Mapped(t, n - 1); if Way(t, n - 1).physical == x then Some(n - 1) else LastAt(t, x, n - 1)
  }

  /** x is visited, or written through, by some byte in [i, n). */
  predicate VisitedFrom(t: Job, x: nat, i: nat, n: nat)
    requires AllMapped(t, n)
  {
    n > i && assert Mapped(t, n - 1); (x in EntriesOf(Way(t, n - 1)) || VisitedFrom(t, x, i, n - 1))
  }

  predicate LeafFrom(t: Job, x: nat, i: nat, n: nat)
    requires AllMapped(t, n)
  {
    n > i && assert Mapped(t, n - 1); (x == LeafEntry(Way(t, n - 1)) || LeafFrom(t, x, i, n - 1))
  }

  lemma OrOr(b: uint8, a: bool, d: bool, a': bool, d': bool)
    ensures Or(Or(b, a, d), a', d') == Or(b, a || a', d || d')
  {
  }

  lemma OrNone(b: uint8)
    ensures Or(b, false, false) == b
  {
  }

  lemma InterleavedNone(t: Job, bytes: Bytes)
    ensures AllMapped(t, 0) && Interleaved(t, bytes, 0) == t.ram
  {
  }

  lemma {:induction false} FromStart(t: Job, x: nat, n: nat)
    requires AllMapped(t, n)
    ensures VisitedFrom(t, x, 0, n) == (x in Visited(t, n)) && LeafFrom(t, x, 0, n) == (x in Leaves(t, n))
    decreases n
  {
    if n > 0 {
      assert AllMapped(t, n - 1);
      FromStart(t, x, n - 1);
      VisitStep(t, n - 1);
      hide EntriesOf, Way, Visited, Leaves;
    }
  }

  lemma {:induction false} StoredAt(t: Job, ram: Bytes, bytes: Bytes, n: nat, x: nat)
    requires AllMapped(t, n) && n <= |bytes| && |ram| == |t.ram| && x < |ram|
    ensures Stored(t, ram, bytes, n)[x] == match LastAt(t, x, n) case None => ram[x] case Some(i) => bytes[i]
    decreases n
  {
    hide Way, Mapped;
    if n > 0 {
      StoredAt(t, ram, bytes, n - 1, x);
    }
  }

  lemma {:induction false} InterleavedAt(t: Job, bytes: Bytes, n: nat, x: nat)
    requires AllMapped(t, n) && n <= |bytes| && x < |t.ram|
    ensures Interleaved(t, bytes, n)[x] ==
              match LastAt(t, x, n)
              case None => Or(t.ram[x], VisitedFrom(t, x, 0, n), LeafFrom(t, x, 0, n))
              case Some(i) => Or(bytes[i], VisitedFrom(t, x, i + 1, n), LeafFrom(t, x, i + 1, n))
    decreases n
  {
    hide Or, Way, Mapped, EntriesOf, Interleaved, AllMapped;
    if n == 0 {
      InterleavedNone(t, bytes);
      OrNone(t.ram[x]);
    } else {
      InterleavedStep(t, bytes, n, x);
      OrNone(bytes[n - 1]);
      InterleavedAt(t, bytes, n - 1, x);
      var w := Way(t, n - 1);
      var a, d := x in EntriesOf(w), x == LeafEntry(w);
      match LastAt(t, x, n - 1)
      case None => OrOr(t.ram[x], VisitedFrom(t, x, 0, n - 1), LeafFrom(t, x, 0, n - 1), a, d);
      case Some(i) => OrOr(bytes[i], VisitedFrom(t, x, i + 1, n - 1), LeafFrom(t, x, i + 1, n - 1), a, d);
    }
  }

  lemma InterleavedStep(t: Job, bytes: Bytes, n: nat, x: nat)
    requires AllMapped(t, n) && 0 < n <= |bytes| && x < |t.ram|
    ensures AllMapped(t, n - 1) && Mapped(t, n - 1)
    ensures var w := Way(t, n - 1);
            Interleaved(t, bytes, n)[x] == if x == w.physical then bytes[n - 1]
                                           else Or(Interleaved(t, bytes, n - 1)[x], x in EntriesOf(w),
                                                   x == LeafEntry(w))
  {
    hide Or, EntriesOf, Way, Mapped;
  }

  /** Batched and interleaved transfers agree exactly when every byte that ends up on a
      page-table entry already has the bits that later bytes of the transfer mark there. */
  lemma InterleavedIff(t: Job, bytes: Bytes, n: nat)
    requires AllMapped(t, n) && n <= |bytes|
    ensures Transferred(t, bytes, n) == Interleaved(t, bytes, n) <==> AllSettled(t, bytes, n)
  {
    hide Transferred, Interleaved, LastAt, Settled, AllMapped;
    var a, b := Transferred(t, bytes, n), Interleaved(t, bytes, n);
    forall x: nat | x < |t.ram|
      ensures |a| == |t.ram|
      ensures a[x] == b[x] <==> (LastAt(t, x, n).Some? ==> Settled(t, bytes, n, x, LastAt(t, x, n).value))
    {
      ByteIff(t, bytes, n, x);
    }
    TransferredSize(t, bytes, n);
    if AllSettled(t, bytes, n) {
      assert forall x: nat | x < |t.ram| :: a[x] == b[x];
      assert a == b;
    } else {
      var x: nat :| x < |t.ram| && LastAt(t, x, n).Some? && !Settled(t, bytes, n, x, LastAt(t, x, n).value);
      assert a[x] != b[x];
    }
  }

  predicate AllSettled(t: Job, bytes: Bytes, n: nat)
    requires AllMapped(t, n) && n <= |bytes|
  {
    forall x: nat | x < |t.ram| && LastAt(t, x, n).Some? :: Settled(t, bytes, n, x, LastAt(t, x, n).value)
  }

  lemma TransferredSize(t: Job, bytes: Bytes, n: nat)
    requires AllMapped(t, n) && n <= |bytes|
    ensures |Transferred(t, bytes, n)| == |t.ram|
  {
  }

  lemma ByteIff(t: Job, bytes: Bytes, n: nat, x: nat)
    requires AllMapped(t, n) && n <= |bytes| && x < |t.ram|
    ensures |Transferred(t, bytes, n)| == |t.ram|
    ensures Transferred(t, bytes, n)[x] == Interleaved(t, bytes, n)[x]
       <==> (LastAt(t, x, n).Some? ==> Settled(t, bytes, n, x, LastAt(t, x, n).value))
  {
    hide Or, Stored, Interleaved, LastAt, Visited, Leaves, VisitedFrom, LeafFrom, AllMapped;
    StoredAt(t, Marked(t.ram, Visited(t, n), Leaves(t, n)), bytes, n, x);
    InterleavedAt(t, bytes, n, x);
    FromStart(t, x, n);
  }

  // ---- a page table that maps itself ---------------------------------------------------------------------

  /** Eight bytes of RAM holding one writable entry that refers to itself. */
  const SELF: Bytes := [3, 0, 0, 0, 0, 0, 0, 0]

  lemma SelfEntry()
    ensures LE(SELF) == 3
  {
    LEZeros(SELF[1..]);
  }

  lemma {:induction false} LEZeros(s: Bytes)
    requires forall i | 0 <= i < |s| :: s[i] == 0
    ensures LE(s) == 0
    decreases |s|
  {
    if s != [] {
      LEZeros(s[1..]);
    }
  }

  lemma SelfClassify(level: nat)
    requires 1 <= level <= 4
    ensures Classify(SELF, 0, level, true, false) == if level == 1 then LeafAt(0) else TableAt(0)
  {
    SelfEntry();
    assert SELF[0..8] == SELF;
    hide LE;
  }

  lemma {:induction false} SelfWalk(va: nat, level: nat)
    requires va < 0x1000 && 1 <= level <= 4
    ensures WalkFrom(SELF, 0, va, level, true, false) == Some(Walked(seq(level, _ => 0), va))
    decreases level
  {
    SelfClassify(level);
    SelfIndex(va, level);
    hide Classify, EntryAt, Low;
    if level > 1 {
      SelfWalk(va, level - 1);
      assert [0] + seq(level - 1, _ => 0) == seq(level, _ => 0);
    } else {
      assert [0] == seq(1, _ => 0);
    }
  }

  lemma SelfIndex(va: nat, level: nat)
    requires va < 0x1000 && 1 <= level <= 4
    ensures EntryAt(0, va, level) == 0 && (level == 1 ==> Low(va, Page(level)) == va)
  {
    DivModUnique(va, 0, va, Page(level));
  }

  /** Storing over the entry in use: the batch keeps the stored byte, the interleaved
      transfer marks it again. */
  lemma InterleavedDiffers(t: Job, bytes: Bytes)
    requires t == Job(SELF, 0, 0, false) && bytes == [3, 0]
    ensures AllMapped(t, 2) && Transferred(t, bytes, 2) != Interleaved(t, bytes, 2)
  {
    hide Walk, WalkOf, Way, Transferred, Interleaved;
    SelfWay(t, 0);
    SelfWay(t, 1);
    SelfDiffers(t, bytes);
  }

  lemma SelfWay(t: Job, i: nat)
    requires t == Job(SELF, 0, 0, false) && i < 8
    ensures Mapped(t, i) && Way(t, i) == Walked(seq(4, _ => 0), i)
  {
    hide WalkFrom;
    SelfWalk(i, 4);
    assert Canonical(i);
  }

  /** Backwards from the last byte of RAM: both bytes are mapped, the range test refuses. */
  lemma BackwardRefused(t: Job)
    requires t == Job(SELF, 0, 7, true)
    ensures AllMapped(t, 2) && !AllPass(t, 2, 2)
  {
    hide WalkFrom, Low;
    SelfWalk(7, 4);
    SelfWalk(6, 4);
    assert Canonical(7) && Canonical(6);
    SelfIndex(7, 1);
    assert Mapped(t, 0) && Mapped(t, 1);
    assert Way(t, 0) == Walked(seq(4, _ => 0), 7) && PageAt(t, 0) == Page(1);
    assert RunAt(t, 0, 2) == 2;
    assert !Passes(t, 0, 2);
  }

  lemma SelfDiffers(t: Job, bytes: Bytes)
    requires t.ram == SELF && AllMapped(t, 2) && bytes == [3, 0]
    requires Mapped(t, 0) && Mapped(t, 1) && Way(t, 0).physical == 0 && Way(t, 1) == Walked(seq(4, _ => 0), 1)
    ensures Transferred(t, bytes, 2) != Interleaved(t, bytes, 2)
  {
    hide WalkOf, Way, Mapped, Transferred, Interleaved, Or;
    InterleavedIff(t, bytes, 2);
    SelfLast(t);
    SelfMarks(t);
    OrBoth();
    assert !Settled(t, bytes, 2, 0, 0);
    hide LastAt, Settled;
    assert 0 < |t.ram|;
  }

  lemma OrBoth()
    ensures Or(3, true, true) == 0x63
  {
  }

  lemma SelfLast(t: Job)
    requires AllMapped(t, 2) && Mapped(t, 0) && Mapped(t, 1) && Way(t, 0).physical == 0 && Way(t, 1).physical == 1
    ensures LastAt(t, 0, 2) == Some(0)
  {
    hide WalkOf, Way, Mapped;
    assert LastAt(t, 0, 1) == Some(0);
  }

  lemma SelfMarks(t: Job)
    requires AllMapped(t, 2) && Mapped(t, 1) && Way(t, 1) == Walked(seq(4, _ => 0), 1)
    ensures VisitedFrom(t, 0, 1, 2) && LeafFrom(t, 0, 1, 2)
  {
    hide WalkOf, Way, Mapped;
    var w := Way(t, 1);
    assert w.entries[0] == 0 && 0 in EntriesOf(w) && LeafEntry(w) == 0;
  }

  predicate Settled(t: Job, bytes: Bytes, n: nat, x: nat, i: nat)
    requires AllMapped(t, n) && i < n <= |bytes|
  {
    Or(bytes[i], VisitedFrom(t, x, i + 1, n), LeafFrom(t, x, i + 1, n)) == bytes[i]
  }
}
