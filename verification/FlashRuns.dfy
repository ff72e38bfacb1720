/** The ring over whole runs: what the driver does to memory and flash at each call, on values, and the plain list that
    any mix of writes, erases and reboots stands for. */
module FlashRuns {
  import opened Basics
  import opened Bytes
  import opened Sequences
  import opened FlashLayout
  import opened FlashSteps
  import opened FlashRecovery

  /** The driver's variables and the partition. */
  datatype Ring = Ring(memory: Memory, pages: seq<Page>)

  /** The variables point into the partition, whatever it holds. */
  ghost predicate Shaped(g: Geometry, ring: Ring) {
    && g.Valid() && IsFlash(g, ring.pages)
    && ring.memory.page < g.Pages() && ring.memory.slot < g.BlocksPerPage() && |ring.memory.buffer| == PAGE_SIZE
  }

  /** The page buffer with the block copied to its slot. */
  function Staged(g: Geometry, buffer: Page, slot: nat, data: Block): (r: Page)
    requires g.Valid() && |buffer| == PAGE_SIZE && slot < g.BlocksPerPage() && IsBlock(g, data)
    ensures |r| == PAGE_SIZE
  {
    g.SlotsFit();
    var at := slot * g.blockSize;
    MulLe(0, slot, g.blockSize);
    buffer[..at] + data + buffer[at + g.blockSize..]
  }

  function SectorBlocks(g: Geometry): nat
    requires g.blockSize > 0
  {
    PAGES_PER_SECTOR * g.BlocksPerPage()
  }

  /** Dropping a sector's blocks from the 32-bit count of a nearly full ring. */
  function Dropped(g: Geometry, count: nat): nat
    requires g.Accepted()
  {
    if count > Capacity(g) - SectorBlocks(g)
    then (if count >= SectorBlocks(g) then count - SectorBlocks(g) else count + TWO_32 - SectorBlocks(g) % TWO_32)
    else count
  }

  /** After the last slot of a page: the next page, and at the first page of a sector the sector after it is erased. */
  ghost function NextPageEntered(g: Geometry, ring: Ring): (r: Ring)
    requires Shaped(g, ring)
    ensures Shaped(g, r)
  {
    var page := (ring.memory.page + 1) % g.Pages();
    if page % PAGES_PER_SECTOR == 0 then
      Ring(Memory(page, 0, Dropped(g, ring.memory.count), BLANK_PAGE),
           EraseSector(ring.pages, (page / PAGES_PER_SECTOR + 1) % g.sectors))
    else Ring(Memory(page, 0, ring.memory.count, BLANK_PAGE), ring.pages)
  }

  /** `write_block`: stage, program, count, move the head. */
  ghost function Written(g: Geometry, ring: Ring, data: Block): (r: Ring)
    requires Shaped(g, ring) && IsBlock(g, data)
    ensures Shaped(g, r)
  {
    var m := ring.memory;
    var staged := Staged(g, m.buffer, m.slot, data);
    var pages := ring.pages[m.page := And(ring.pages[m.page], staged)];
    var count := if m.count < Capacity(g) then m.count + 1 else m.count;
    var slot := (m.slot + 1) % g.BlocksPerPage();
    var stored := Ring(Memory(m.page, slot, count, staged), pages);
    if slot == 0 then NextPageEntered(g, stored) else stored
  }

  /** On any flash the count goes up by one to the capacity and no further, except that a sector erased ahead takes its
      blocks off; with three sectors or more it never takes off more than was counted. */
  lemma WrittenCount(g: Geometry, ring: Ring, data: Block)
    requires Shaped(g, ring) && IsBlock(g, data) && ring.memory.count <= Capacity(g)
    ensures
      var m, m' := ring.memory, Written(g, ring, data).memory;
      var grown := if m.count == Capacity(g) then m.count else m.count + 1;
      && m'.slot == (if m.slot + 1 == g.BlocksPerPage() then 0 else m.slot + 1)
      && m'.page == (if m'.slot != 0 then m.page else if m.page + 1 == g.Pages() then 0 else m.page + 1)
      && m'.count == (if m'.slot == 0 && m'.page % 16 == 0 then Less(g, grown) else grown)
      && (g.sectors >= 3 ==> m'.count <= Capacity(g))
  {
    hide Geometry.BlocksPerPage, Staged, And, EraseSector, Capacity, IsBlock, IsFlash;
    SectorInCapacity(g);
    Successor(ring.memory.slot, g.BlocksPerPage());
    Successor(ring.memory.page, g.Pages());
    var m, m' := ring.memory, Written(g, ring, data).memory;
    var grown := if m.count == Capacity(g) then m.count else m.count + 1;
    assert m'.slot == 0 && m'.page % 16 == 0 ==> m'.count == Dropped(g, grown);
    DroppedIs(g, grown);
  }

  /** The count of a nearly full ring without the sixteen pages of a sector, in 32 bits. */
  function Less(g: Geometry, count: nat): int
    requires g.Accepted()
  {
    var sector := 16 * g.BlocksPerPage();
    if count + sector <= Capacity(g) then count
    else if count >= sector then count - sector else count - sector + 0x1_0000_0000
  }

  lemma DroppedIs(g: Geometry, count: nat)
    requires g.Valid() && count <= Capacity(g)
    ensures Dropped(g, count) == Less(g, count)
    ensures g.sectors >= 3 ==> Dropped(g, count) <= Capacity(g)
  {
    hide Geometry.BlocksPerPage, Capacity;
    CapacityInBlocks(g);
    g.FieldIsExact();
    var sector := 16 * g.BlocksPerPage();
    assert sector % TWO_32 == sector;
    if g.sectors >= 3 {
      MulLe(2, g.sectors - 1, sector);
      assert Capacity(g) == (g.sectors - 1) * sector;
    }
  }

  lemma Successor(k: nat, n: nat)
    requires k < n
    ensures (k + 1) % n == if k + 1 == n then 0 else k + 1
  {
    if k + 1 == n { assert n % n == 0; }
  }

  function Erased(g: Geometry): Ring {
    Ring(Memory(0, 0, 0, BLANK_PAGE), seq(g.Pages(), _ => BLANK_PAGE))
  }

  /** `read_block`: the slot this many places behind the head, around the ring. */
  ghost function ReadAt(g: Geometry, ring: Ring, index: nat): (data: seq<Byte>)
    requires Shaped(g, ring)
    ensures |data| == g.blockSize
  {
    hide Geometry.BlocksPerPage, PlaceOf;
    var at := PlaceOf(g, ring.memory.page, ring.memory.slot, index);
    PlaceInside(g, ring.memory.page, ring.memory.slot, index);
    SlotLength(g, ring.pages[at / g.BlocksPerPage()], at % g.BlocksPerPage());
    Slot(g, ring.pages[at / g.BlocksPerPage()], at % g.BlocksPerPage())
  }

  lemma SlotLength(g: Geometry, page: Page, k: nat)
    requires g.Valid() && |page| == PAGE_SIZE && k < g.BlocksPerPage()
    ensures |Slot(g, page, k)| == g.blockSize
  {
    g.SlotsFit();
  }

  /** The place of block `index` behind the head, counting slots from the start of the partition. */
  function PlaceOf(g: Geometry, page: nat, slot: nat, index: nat): int
    requires g.Valid()
  {
    BppPositive(g);
    MulLe(1, g.Pages(), g.BlocksPerPage());
    (page * g.BlocksPerPage() + slot - 1 - index) % (g.Pages() * g.BlocksPerPage())
  }

  lemma PlaceInside(g: Geometry, page: nat, slot: nat, index: nat)
    requires g.Valid()
    ensures g.BlocksPerPage() >= 1
    ensures 0 <= PlaceOf(g, page, slot, index) < g.Pages() * g.BlocksPerPage()
    ensures 0 <= PlaceOf(g, page, slot, index) / g.BlocksPerPage() < g.Pages()
  {
    BppPositive(g);
    hide Geometry.BlocksPerPage;
    MulLe(1, g.Pages(), g.BlocksPerPage());
    QuotientBound(PlaceOf(g, page, slot, index), g.Pages(), g.BlocksPerPage());
  }

  lemma QuotientBound(x: int, n: nat, k: nat)
    requires k >= 1 && 0 <= x < n * k
    ensures 0 <= x / k < n
  {
    var q := x / k;
    assert q * k <= x;
    if q >= n { MulLe(n, q, k); }
  }

  // ---- runs ----

  datatype Operation = Write(data: Block) | EraseAll | Reboot

  ghost predicate WritesBlocks(g: Geometry, operations: seq<Operation>) {
    forall i :: 0 <= i < |operations| && operations[i].Write? ==> IsBlock(g, operations[i].data)
  }

  ghost predicate WritesMarked(operations: seq<Operation>) {
    forall i :: 0 <= i < |operations| && operations[i].Write? ==> IsMarked(operations[i].data)
  }

  /** A reboot looks for start markers, in at least three sectors. */
  ghost predicate Rebootable(g: Geometry, operations: seq<Operation>) {
    (g.sectors >= 3 && WritesMarked(operations)) || Reboot !in operations
  }

  /** The plain list: what was written since the last erase. */
  function ListAfter(operations: seq<Operation>): seq<Block> {
    if operations == [] then []
    else
      var before := ListAfter(operations[..|operations| - 1]);
      match operations[|operations| - 1]
      case Write(data) => before + [data]
      case EraseAll => []
      case Reboot => before
  }

  /** One call, or a reboot: memory is lost and rebuilt from the flash. */
  ghost function Performed(g: Geometry, ring: Ring, operation: Operation): (r: Ring)
    requires Shaped(g, ring) && (operation.Write? ==> IsBlock(g, operation.data))
    ensures Shaped(g, r)
  {
    match operation
    case Write(data) => Written(g, ring, data)
    case EraseAll =>
      BppPositive(g);
      Erased(g)
    case Reboot =>
      BppPositive(g);
      match Recover(g, ring.pages)
      case NoBlankPage => Erased(g)
      case Recovered(memory, pages) => Ring(memory, pages)
  }

  /** What the ring holds after a run, from a blank partition. */
  ghost function RingAfter(g: Geometry, operations: seq<Operation>): (ring: Ring)
    requires g.Valid() && WritesBlocks(g, operations)
    ensures Shaped(g, ring)
  {
    if operations == [] then
      BppPositive(g);
      Erased(g)
    else Performed(g, RingAfter(g, operations[..|operations| - 1]), operations[|operations| - 1])
  }

  /** The log that a run stands for. */
  function LogAfter(g: Geometry, operations: seq<Operation>): Log
    requires g.Valid()
  {
    if operations == [] then EMPTY_LOG
    else
      var before := LogAfter(g, operations[..|operations| - 1]);
      match operations[|operations| - 1]
      case Write(data) => Append(g, before, data)
      case EraseAll => EMPTY_LOG
      case Reboot => before
  }

  /** Memory and flash are what the log prescribes. */
  ghost predicate Holds(g: Geometry, ring: Ring, log: Log)
    requires g.Valid()
  {
    IsLog(g, log) && ring.memory == Running(g, log) && ring.pages == Image(g, log)
  }

  lemma HoldsShaped(g: Geometry, ring: Ring, log: Log)
    requires g.Valid() && Holds(g, ring, log)
    ensures Shaped(g, ring)
  {
    hide Image, PageBytes, Geometry.BlocksPerPage, Retained;
    ImageIsFlash(g, log);
    BppPositive(g);
    PageShape(g, log.tail);
  }

  lemma EmptyHolds(g: Geometry)
    requires g.Valid()
    ensures Holds(g, Erased(g), EMPTY_LOG)
  {
    BppPositive(g);
    NoBlocks(g);
    EmptyPage();
    forall p: nat | p < g.Pages()
      ensures Image(g, EMPTY_LOG)[p] == BLANK_PAGE
    {
      assert PageBlocks(g, EMPTY_LOG, p) == [];
    }
  }

  /** Staging and programming a page that holds the log's tail gives the page with one block more. */
  lemma StagedTail(g: Geometry, log: Log, data: Block)
    requires g.Valid() && IsLog(g, log) && IsBlock(g, data)
    ensures HeadPage(g, log) < |Image(g, log)| && |PageBytes(log.tail)| == PAGE_SIZE
    ensures Image(g, log)[HeadPage(g, log)] == PageBytes(log.tail)
    ensures |log.tail| < g.BlocksPerPage()
    ensures Staged(g, PageBytes(log.tail), |log.tail|, data) == PageBytes(log.tail + [data])
    ensures And(PageBytes(log.tail), PageBytes(log.tail + [data])) == PageBytes(log.tail + [data])
  {
    hide Geometry.BlocksPerPage, And, Staged;
    PageShape(g, log.tail);
    ProgramIsExact(g, log.tail, data);
    StagedIs(g, log.tail, data);
  }

  lemma StagedIs(g: Geometry, blocks: seq<Block>, data: Block)
    requires g.Valid() && AllBlocks(g, blocks) && |blocks| < g.BlocksPerPage() && IsBlock(g, data)
    ensures |PageBytes(blocks)| == PAGE_SIZE
    ensures Staged(g, PageBytes(blocks), |blocks|, data) == PageBytes(blocks + [data])
  {
    hide Geometry.BlocksPerPage, PageBytes;
    PageSnoc(g, blocks, data);
  }

  /** The driver's write takes what one log prescribes to what the log with one block more prescribes. */
  lemma WrittenHolds(g: Geometry, ring: Ring, log: Log, data: Block)
    requires g.Valid() && Holds(g, ring, log) && IsBlock(g, data)
    ensures Shaped(g, ring) && Holds(g, Written(g, ring, data), Append(g, log, data))
    ensures Blocks(Append(g, log, data)) == Blocks(log) + [data]
  {
    hide Blocks, Image, PageBytes, And, Staged, Capacity, HeadPage, EraseSector, Append, Geometry.BlocksPerPage,
      IsBlock, RetainedPages, Retained, Running, IsLog;
    HoldsShaped(g, ring, log);
    AppendIsSnoc(g, log, data);
    StagedTail(g, log, data);
    WriteEffect(g, log, data);
    SectorInCapacity(g);
    RunningIs(g, log);
    RunningIs(g, Append(g, log, data));
  }

  lemma RunningIs(g: Geometry, log: Log)
    requires g.Valid()
    ensures Running(g, log) == Memory(HeadPage(g, log), |log.tail|, Retained(g, log), PageBytes(log.tail))
  {
  }

  lemma SectorInCapacity(g: Geometry)
    requires g.Valid()
    ensures Capacity(g) >= SectorBlocks(g)
  {
    CapacityInBlocks(g);
    MulLe(PAGES_PER_SECTOR, PAGES_PER_SECTOR * (g.sectors - 1), g.BlocksPerPage());
  }

  // ---- reading ----

  lemma ImageAt(g: Geometry, log: Log, p: nat)
    requires g.Valid() && p < g.Pages()
    ensures |Image(g, log)| == g.Pages() && Image(g, log)[p] == PageBytes(PageBlocks(g, log, p))
  {
  }

  /** A retained block read from its place in the flash image is the block of the list. */
  lemma RetainedBlock(g: Geometry, log: Log, q: nat, r: nat)
    requires g.Valid() && IsLog(g, log)
    requires |log.full| - RetainedPages(g, |log.full|) <= q <= |log.full|
    requires r < if q == |log.full| then |log.tail| else g.BlocksPerPage()
    ensures r < g.BlocksPerPage() && 0 <= q * g.BlocksPerPage() + r < |Blocks(log)|
    ensures 0 <= PhysicalPage(g, log, q) < |Image(g, log)|
    ensures |Image(g, log)[PhysicalPage(g, log, q)]| == PAGE_SIZE
    ensures Slot(g, Image(g, log)[PhysicalPage(g, log, q)], r) == Blocks(log)[q * g.BlocksPerPage() + r]
  {
    hide PhysicalPage, RetainedPages, Blocks, Image, PageBytes, PageBlocks, Slot;
    MulLe(0, q, g.BlocksPerPage());
    RetainedPageInImage(g, log, q);
    ImageAt(g, log, PhysicalPage(g, log, q));
    var blocks := if q == |log.full| then log.tail else log.full[q];
    BlockAt(g, log, q, r);
    PageSlot(g, blocks, r);
  }

  lemma DivModIs(x: int, q: int, r: int, k: nat)
    requires k >= 1 && 0 <= r < k && x == q * k + r
    ensures x / k == q && x % k == r
  {
    var p, s := x / k, x % k;
    assert (p - q) * k == r - s;
    if p > q { MulLe(1, p - q, k); } else if p < q {
      assert (q - p) * k == s - r;
      MulLe(1, q - p, k);
    }
  }

  /** Block `q * bpp + r` of the list lies at slot `r` of the physical page of `q`, which is where the walk back from
      the head arrives. */
  lemma PlaceOfBlock(g: Geometry, log: Log, q: nat, r: nat, index: nat)
    requires g.Valid() && IsLog(g, log) && r < g.BlocksPerPage()
    requires 0 <= PhysicalPage(g, log, q) < g.Pages()
    requires q * g.BlocksPerPage() + r == |log.full| * g.BlocksPerPage() + |log.tail| - 1 - index
    ensures PlaceOf(g, HeadPage(g, log), |log.tail|, index) / g.BlocksPerPage() == PhysicalPage(g, log, q)
    ensures PlaceOf(g, HeadPage(g, log), |log.tail|, index) % g.BlocksPerPage() == r
  {
    hide Geometry.BlocksPerPage, LapBase;
    BppPositive(g);
    var bpp, base, p := g.BlocksPerPage(), LapBase(|log.full|, g.Pages()), PhysicalPage(g, log, q);
    var laps := if q >= base then 0 else -1;
    var back := HeadPage(g, log) * bpp + |log.tail| - 1 - index;
    Distribute(|log.full|, base, bpp);
    PhysicalPlace(q, base, g.Pages(), p, laps, bpp);
    assert back == laps * (g.Pages() * bpp) + (p * bpp + r);
    PlaceBelow(p, g.Pages(), r, bpp);
    DivModIs(back, laps, p * bpp + r, g.Pages() * bpp);
    DivModIs(p * bpp + r, p, r, bpp);
  }

  lemma Distribute(n: nat, base: nat, bpp: nat)
    requires base <= n
    ensures (n - base) * bpp == n * bpp - base * bpp
  {
  }

  lemma PhysicalPlace(q: nat, base: nat, pages: nat, p: int, laps: int, bpp: nat)
    requires p == q - base - laps * pages && (laps == 0 || laps == -1)
    ensures p * bpp == q * bpp - base * bpp - laps * (pages * bpp)
  {
    if laps == 0 {
      assert (q - base) * bpp == q * bpp - base * bpp;
    } else {
      assert (q - base + pages) * bpp == q * bpp - base * bpp + pages * bpp;
    }
  }

  lemma PlaceBelow(p: nat, pages: nat, r: nat, bpp: nat)
    requires p < pages && r < bpp
    ensures 0 <= p * bpp + r < pages * bpp && pages * bpp >= 1
  {
    MulLe(0, p, bpp);
    MulLe(p + 1, pages, bpp);
    assert (p + 1) * bpp == p * bpp + bpp;
  }

  /** The page and slot of the list's block `w`. */
  lemma BlockPlace(g: Geometry, log: Log, w: nat)
    requires g.Valid() && IsLog(g, log)
    requires |Blocks(log)| - Retained(g, log) <= w < |Blocks(log)|
    ensures
      var bpp := g.BlocksPerPage();
      && bpp >= 1 && |Blocks(log)| == |log.full| * bpp + |log.tail|
      && |log.full| - RetainedPages(g, |log.full|) <= w / bpp <= |log.full| && w % bpp < bpp
      && w == w / bpp * bpp + w % bpp
      && w % bpp < if w / bpp == |log.full| then |log.tail| else bpp
  {
    hide Blocks, Geometry.BlocksPerPage, Retained, IsLog;
    BppPositive(g);
    RetainedAtLeast(g, log);
    TailBelow(g, log);
    var n, bpp, kept := |log.full|, g.BlocksPerPage(), RetainedPages(g, |log.full|);
    hide RetainedPages;
    DistributeKept(n, kept, bpp);
    PlaceBetween(n, kept, bpp, |log.tail|, w);
  }

  lemma TailBelow(g: Geometry, log: Log)
    requires g.Valid() && IsLog(g, log)
    ensures |log.tail| < g.BlocksPerPage() && RetainedPages(g, |log.full|) <= |log.full|
    ensures Retained(g, log) == RetainedPages(g, |log.full|) * g.BlocksPerPage() + |log.tail|
  {
    hide Geometry.BlocksPerPage;
  }

  lemma PlaceBetween(n: nat, kept: nat, bpp: nat, tail: nat, w: nat)
    requires bpp >= 1 && kept <= n && tail < bpp && (n - kept) * bpp <= w < n * bpp + tail
    ensures n - kept <= w / bpp <= n && 0 <= w % bpp < if w / bpp == n then tail else bpp
    ensures w == w / bpp * bpp + w % bpp
  {
    var q := w / bpp;
    assert w == q * bpp + w % bpp;
    if q < n - kept {
      MulLe(q + 1, n - kept, bpp);
      Distribute(q + 1, 1, bpp);
    } else if q > n {
      MulLe(n + 1, q, bpp);
      Distribute(n + 1, 1, bpp);
    }
  }

  lemma DistributeKept(n: nat, kept: nat, bpp: nat)
    ensures (n - kept) * bpp == n * bpp - kept * bpp
  {
  }

  /** Reading block `index` of a ring that holds a log gives that block of the list, counted from the newest. */
  lemma ReadHolds(g: Geometry, ring: Ring, log: Log, index: nat)
    requires g.Valid() && Holds(g, ring, log) && index < ring.memory.count
    ensures Shaped(g, ring) && index < |Blocks(log)|
    ensures ReadAt(g, ring, index) == Blocks(log)[|Blocks(log)| - 1 - index]
  {
    hide Image, Blocks, IsLog, PhysicalPage, Slot, Geometry.BlocksPerPage, PlaceOf, Retained, PageBytes;
    HoldsShaped(g, ring, log);
    RetainedAtLeast(g, log);
    var w := |Blocks(log)| - 1 - index;
    BlockPlace(g, log, w);
    var q, r := w / g.BlocksPerPage(), w % g.BlocksPerPage();
    RetainedBlock(g, log, q, r);
    PlaceOfBlock(g, log, q, r, index);
  }

  // ---- the refinement ----

  lemma RecoveredHolds(g: Geometry, ring: Ring, log: Log)
    requires g.Valid() && Holds(g, ring, log) && MarkedLog(log) && g.sectors >= 3
    ensures Shaped(g, ring) && Holds(g, Performed(g, ring, Reboot), log)
  {
    hide Image, Running, Recover, IsLog;
    HoldsShaped(g, ring, log);
    RecoveryIsExact(g, log);
  }

  lemma {:induction false} RunHolds(g: Geometry, operations: seq<Operation>)
    requires g.Valid() && WritesBlocks(g, operations) && Rebootable(g, operations)
    ensures Holds(g, RingAfter(g, operations), LogAfter(g, operations))
    ensures Blocks(LogAfter(g, operations)) == ListAfter(operations)
    ensures WritesMarked(operations) ==> MarkedLog(LogAfter(g, operations))
  {
    hide Holds, Written, Append, Shaped, Recover, IsBlock, IsMarked, Blocks, MarkedLog, IsLog, Performed, Erased;
    if operations == [] {
      EmptyHolds(g);
      NothingListed();
    } else {
      var n := |operations| - 1;
      var before, last := operations[..n], operations[n];
      RunHolds(g, before);
      StepHolds(g, RingAfter(g, before), LogAfter(g, before), last, ListAfter(before));
    }
  }

  lemma NothingListed()
    ensures Blocks(EMPTY_LOG) == [] && MarkedLog(EMPTY_LOG)
  {
  }

  /** One operation on a ring that holds a log. */
  lemma StepHolds(g: Geometry, ring: Ring, log: Log, operation: Operation, list: seq<Block>)
    requires g.Valid() && Holds(g, ring, log) && Blocks(log) == list
    requires operation.Write? ==> IsBlock(g, operation.data)
    requires operation.Reboot? ==> g.sectors >= 3 && MarkedLog(log)
    ensures Shaped(g, ring)
    ensures
      var log' :=
        match operation case Write(data) => Append(g, log, data) case EraseAll => EMPTY_LOG case Reboot => log;
      && Holds(g, Performed(g, ring, operation), log')
      && Blocks(log') == (match operation case Write(data) => list + [data] case EraseAll => [] case Reboot => list)
      && (MarkedLog(log) && (operation.Write? ==> IsMarked(operation.data)) ==> MarkedLog(log'))
  {
    hide Shaped, Written, Append, Recover, IsBlock, IsMarked, Blocks, MarkedLog, Erased, Image, Running, IsLog;
    HoldsShaped(g, ring, log);
    match operation
    case Write(data) =>
      WrittenHolds(g, ring, log, data);
      AppendIsSnoc(g, log, data);
    case EraseAll =>
      EmptyHolds(g);
      NothingListed();
    case Reboot =>
      RecoveredHolds(g, ring, log);
  }

  /** The promised number of the latest blocks. */
  function Promised(g: Geometry, list: seq<Block>): int
    requires g.Valid()
  {
    var most := (g.sectors - 2) * PAGES_PER_SECTOR * g.BlocksPerPage();
    if |list| < most then |list| else most
  }

  /** Over any mix of writes, erases and reboots the ring refines the plain list: memory and flash are exactly what the
      list prescribes, the count covers at least the promised latest blocks, and reading `index` gives the
      (`index` + 1)-th newest block for every index below the count. */
  lemma RingRefinesList(g: Geometry, operations: seq<Operation>)
    requires g.Valid() && WritesBlocks(g, operations) && Rebootable(g, operations)
    ensures
      var ring, log, list := RingAfter(g, operations), LogAfter(g, operations), ListAfter(operations);
      && Blocks(log) == list && Holds(g, ring, log)
      && Promised(g, list) <= ring.memory.count <= |list|
      && forall index: nat :: index < ring.memory.count ==> ReadAt(g, ring, index) == list[|list| - 1 - index]
  {
    hide RingAfter, LogAfter, ListAfter, Blocks, Image, IsLog, Rebootable, WritesBlocks, ReadAt, Geometry.BlocksPerPage;
    RunHolds(g, operations);
    var ring, log, list := RingAfter(g, operations), LogAfter(g, operations), ListAfter(operations);
    RetainedAtLeast(g, log);
    forall index: nat | index < ring.memory.count
      ensures ReadAt(g, ring, index) == list[|list| - 1 - index]
    {
      ReadHolds(g, ring, log, index);
    }
  }
}
