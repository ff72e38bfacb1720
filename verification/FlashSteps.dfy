/** How one write moves the partition image, the head and the count, and where a retained block lives. */
module FlashSteps {
  import opened Sequences
  import opened FlashLayout

  function NextPage(g: Geometry, p: nat): nat
    requires g.Valid()
  {
    if p + 1 == g.Pages() then 0 else p + 1
  }

  /** The sector erased ahead of time when the head enters the first page of a sector. */
  function SectorAhead(g: Geometry, p: nat): nat
    requires g.Valid()
  {
    (p / PAGES_PER_SECTOR + 1) % g.sectors
  }

  lemma SectorAheadCases(g: Geometry, p: nat)
    requires g.Valid() && p < g.Pages()
    ensures SectorAhead(g, p) ==
            if p / PAGES_PER_SECTOR == g.sectors - 1 then 0 else p / PAGES_PER_SECTOR + 1
  {
    if p / PAGES_PER_SECTOR == g.sectors - 1 {
      assert g.sectors % g.sectors == 0;
    }
  }

  lemma HeadStep(g: Geometry, log: Log, b: Block)
    requires g.Valid() && IsLog(g, log)
    ensures HeadPage(g, log) < g.Pages()
    ensures HeadPage(g, Append(g, log, b)) ==
            if |log.tail| + 1 == g.BlocksPerPage() then NextPage(g, HeadPage(g, log)) else HeadPage(g, log)
  {
    LapBaseStep(|log.full|, g.Pages());
  }

  /** Page by page, what a write that completes a page changes. */
  lemma CompletedPageBlocks(g: Geometry, log: Log, b: Block, p: nat)
    requires g.Valid() && IsLog(g, log) && p < g.Pages()
    requires |log.tail| + 1 == g.BlocksPerPage()
    ensures
      var next := NextPage(g, HeadPage(g, log));
      PageBlocks(g, Append(g, log, b), p) ==
        if next % PAGES_PER_SECTOR == 0 && p / PAGES_PER_SECTOR == SectorAhead(g, next) then []
        else if p == HeadPage(g, log) then log.tail + [b]
        else PageBlocks(g, log, p)
  {
    LapBaseStep(|log.full|, g.Pages());
    LapBaseAligned(|log.full|, g.sectors);
    if HeadPage(g, log) + 1 == g.Pages() { LapEnds(g, log, b, p); } else { LapGoesOn(g, log, b, p); }
  }

  /** The last page of a lap is complete: the head starts over on page 0 and the second sector is erased. */
  lemma LapEnds(g: Geometry, log: Log, b: Block, p: nat)
    requires g.Valid() && IsLog(g, log) && p < g.Pages()
    requires |log.tail| + 1 == g.BlocksPerPage() && HeadPage(g, log) + 1 == g.Pages()
    requires LapBase(|log.full| + 1, g.Pages()) == |log.full| + 1
    ensures
      PageBlocks(g, Append(g, log, b), p) ==
        if p / PAGES_PER_SECTOR == SectorAhead(g, 0) then []
        else if p == HeadPage(g, log) then log.tail + [b]
        else PageBlocks(g, log, p)
  {
    SectorAheadCases(g, 0);
    var log' := Append(g, log, b);
    assert log'.full == log.full + [log.tail + [b]] && log'.tail == [];
    hide LapBase, SectorAhead, Append, IsLog, Geometry.BlocksPerPage;
  }

  /** Within a lap the head moves to the page after. */
  lemma LapGoesOn(g: Geometry, log: Log, b: Block, p: nat)
    requires g.Valid() && IsLog(g, log) && p < g.Pages()
    requires |log.tail| + 1 == g.BlocksPerPage() && HeadPage(g, log) + 1 < g.Pages()
    requires LapBase(|log.full| + 1, g.Pages()) == LapBase(|log.full|, g.Pages())
    ensures
      var next := HeadPage(g, log) + 1;
      PageBlocks(g, Append(g, log, b), p) ==
        if next % PAGES_PER_SECTOR == 0 && p / PAGES_PER_SECTOR == SectorAhead(g, next) then []
        else if p == HeadPage(g, log) then log.tail + [b]
        else PageBlocks(g, log, p)
  {
    var head := HeadPage(g, log);
    SectorAheadCases(g, head + 1);
    var log' := Append(g, log, b);
    assert log'.full == log.full + [log.tail + [b]] && log'.tail == [];
    hide LapBase, SectorAhead, Append, IsLog, Geometry.BlocksPerPage;
    if p == head {
      assert log'.full[|log.full|] == log.tail + [b];
    } else if p < head {
      hide PageBlocks;
      PageBehind(g, log, log', p);
      assert p / PAGES_PER_SECTOR <= (head + 1) / PAGES_PER_SECTOR;
    } else {
      hide PageBlocks;
      PageAhead(g, log, log', p);
      assert p / PAGES_PER_SECTOR >= head / PAGES_PER_SECTOR;
    }
  }

  /** A page behind the head is dropped only when the head enters the last sector. */
  lemma PageBehind(g: Geometry, log: Log, log': Log, p: nat)
    requires g.Valid() && p < HeadPage(g, log) && HeadPage(g, log) + 1 < g.Pages()
    requires |log'.full| == |log.full| + 1 && log'.full[..|log.full|] == log.full
    requires LapBase(|log.full| + 1, g.Pages()) == LapBase(|log.full|, g.Pages())
    ensures
      var next := HeadPage(g, log) + 1;
      PageBlocks(g, log', p) ==
        if next % PAGES_PER_SECTOR == 0 && next / PAGES_PER_SECTOR == g.sectors - 1 && p / PAGES_PER_SECTOR == 0 then []
        else PageBlocks(g, log, p)
  {
    var base := LapBase(|log.full|, g.Pages());
    assert log'.full[base + p] == log'.full[..|log.full|][base + p];
    hide LapBase;
  }

  /** A page ahead of the head is dropped when the head enters the sector before it. */
  lemma PageAhead(g: Geometry, log: Log, log': Log, p: nat)
    requires g.Valid() && HeadPage(g, log) < p < g.Pages()
    requires |log'.full| == |log.full| + 1 && log'.full[..|log.full|] == log.full && log'.tail == []
    requires LapBase(|log.full| + 1, g.Pages()) == LapBase(|log.full|, g.Pages())
    ensures
      var next := HeadPage(g, log) + 1;
      PageBlocks(g, log', p) ==
        if next % PAGES_PER_SECTOR == 0 && p / PAGES_PER_SECTOR == next / PAGES_PER_SECTOR + 1 then []
        else PageBlocks(g, log, p)
  {
    var base := LapBase(|log.full|, g.Pages());
    if base != 0 { assert log'.full[base - g.Pages() + p] == log'.full[..|log.full|][base - g.Pages() + p]; }
    hide LapBase;
  }

  /** One write, on the whole partition: program the head's page, and when the head enters a new sector erase the
      sector after it. The result is again the image of the list. */
  lemma AppendImage(g: Geometry, log: Log, b: Block)
    requires g.Valid() && IsLog(g, log) && IsBlock(g, b)
    ensures
      var programmed := Image(g, log)[HeadPage(g, log) := PageBytes(log.tail + [b])];
      var next := HeadPage(g, Append(g, log, b));
      Image(g, Append(g, log, b)) ==
        if |log.tail| + 1 == g.BlocksPerPage() && next % PAGES_PER_SECTOR == 0
        then EraseSector(programmed, SectorAhead(g, next))
        else programmed
  {
    HeadStep(g, log, b);
    EmptyPage();
    var programmed := Image(g, log)[HeadPage(g, log) := PageBytes(log.tail + [b])];
    var next := HeadPage(g, Append(g, log, b));
    var image := Image(g, Append(g, log, b));
    if |log.tail| + 1 == g.BlocksPerPage() {
      forall p: nat | p < g.Pages()
        ensures image[p] == if next % PAGES_PER_SECTOR == 0 && p / PAGES_PER_SECTOR == SectorAhead(g, next)
                            then BLANK_PAGE else programmed[p]
      {
        CompletedPageBlocks(g, log, b, p);
      }
    } else {
      assert image == programmed;
    }
  }

  /** The sector after the head's sector, and the head's sector behind the head, are fully erased. */
  lemma GapIsErased(g: Geometry, log: Log, p: nat)
    requires g.Valid() && IsLog(g, log) && p < g.Pages()
    requires p / PAGES_PER_SECTOR == SectorAhead(g, HeadPage(g, log))
             || (p > HeadPage(g, log) && p / PAGES_PER_SECTOR == HeadPage(g, log) / PAGES_PER_SECTOR)
    ensures Image(g, log)[p] == BLANK_PAGE
  {
    SectorAheadCases(g, HeadPage(g, log));
    EmptyPage();
  }

  // ---- the count ----

  lemma CapacityInBlocks(g: Geometry)
    requires g.Valid()
    ensures Capacity(g) == PAGES_PER_SECTOR * (g.sectors - 1) * g.BlocksPerPage()
  {
    g.PageIsWholeBlocks();
    var bpp, bs, s := g.BlocksPerPage(), g.blockSize, g.sectors - 1;
    assert s * SECTOR_SIZE == s * (16 * (bpp * bs)) == (16 * s * bpp) * bs;
    DivExact(16 * s * bpp, bs);
  }

  lemma DivExact(a: nat, k: nat)
    requires k > 0
    ensures a * k / k == a
  {
    var q := a * k / k;
    assert q * k <= a * k < q * k + k;
    assert (q + 1) * k == q * k + k && (a + 1) * k == a * k + k;
    if q < a { MulLe(q + 1, a, k); }
    if a < q { MulLe(a + 1, q, k); }
  }

  /** Counting up at each write, and dropping one sector's blocks when a sector is erased from a full ring, tracks
      the readable blocks exactly; the cap at the capacity is never in the way of counting a write. */
  lemma RetainedStep(g: Geometry, log: Log, b: Block)
    requires g.Valid() && IsLog(g, log)
    ensures Retained(g, log) < Capacity(g)
    ensures
      var next := HeadPage(g, Append(g, log, b));
      var sectorBlocks := PAGES_PER_SECTOR * g.BlocksPerPage();
      Retained(g, Append(g, log, b)) ==
        if |log.tail| + 1 == g.BlocksPerPage() && next % PAGES_PER_SECTOR == 0
           && Retained(g, log) + 1 > Capacity(g) - sectorBlocks
        then Retained(g, log) + 1 - sectorBlocks
        else Retained(g, log) + 1
  {
    var n, bpp, s := |log.full|, g.BlocksPerPage(), g.sectors;
    CapacityInBlocks(g);
    HeadStep(g, log, b);
    RetainedPagesStep(g, n);
    var r, r' := RetainedPages(g, n), RetainedPages(g, n + 1);
    var most, least := 16 * (s - 1), 16 * (s - 2);
    MulLe(r + 1, most, bpp);
    SectorOfBlocks(r, least, most, bpp);
    if |log.tail| + 1 == bpp && (n + 1) % PAGES_PER_SECTOR == 0 && n + 1 <= least {
      MulLe(r + 1, least, bpp);
    }
  }

  lemma SectorOfBlocks(r: nat, least: nat, most: nat, bpp: nat)
    requires most == least + PAGES_PER_SECTOR
    ensures (r + 1) * bpp == r * bpp + bpp
    ensures most * bpp == least * bpp + PAGES_PER_SECTOR * bpp
  {
  }

  lemma RetainedPagesStep(g: Geometry, n: nat)
    requires g.Valid()
    ensures RetainedPages(g, n) < PAGES_PER_SECTOR * (g.sectors - 1)
    ensures (n + 1 - LapBase(n + 1, g.Pages())) % PAGES_PER_SECTOR == (n + 1) % PAGES_PER_SECTOR
    ensures RetainedPages(g, n + 1) ==
            if (n + 1) % PAGES_PER_SECTOR == 0 && n + 1 > PAGES_PER_SECTOR * (g.sectors - 2)
            then PAGES_PER_SECTOR * (g.sectors - 2) else RetainedPages(g, n) + 1
    ensures (n + 1) % PAGES_PER_SECTOR == 0 && n + 1 > PAGES_PER_SECTOR * (g.sectors - 2) ==>
              RetainedPages(g, n) + 1 == PAGES_PER_SECTOR * (g.sectors - 1)
    ensures n + 1 <= PAGES_PER_SECTOR * (g.sectors - 2) ==> RetainedPages(g, n) == n
  {
    LapBaseAligned(n + 1, g.sectors);
    DropAligned(n + 1, LapBase(n + 1, g.Pages()));
    NextInSector(n, g.sectors - 2);
    NextInSector(n, g.sectors - 1);
  }

  lemma WholeSectors(n: nat)
    requires n % PAGES_PER_SECTOR == 0
    ensures n == 16 * (n / PAGES_PER_SECTOR)
  {
  }

  lemma DropAligned(n: nat, base: nat)
    requires base % PAGES_PER_SECTOR == 0 && base <= n
    ensures (n - base) % PAGES_PER_SECTOR == n % PAGES_PER_SECTOR
  {
    var lap := base / PAGES_PER_SECTOR;
    assert base == 16 * lap;
  }

  lemma NextInSector(n: nat, s: nat)
    ensures (n + 1) % 16 == if n % 16 == 15 then 0 else n % 16 + 1
    ensures (n + 1) % 16 == 0 && n + 1 > 16 * s ==> n + 1 >= 16 * (s + 1)
    ensures n + 1 == 16 * s ==> n % 16 == 15
  {
    var m, x := n / 16, n % 16;
    assert n == 16 * m + x;
    if x == 15 { assert n + 1 == 16 * (m + 1); }
  }

  /** A ring of `s` sectors always keeps the last `(s - 2)` sectors' worth of writes. */
  lemma RetainedAtLeast(g: Geometry, log: Log)
    requires g.Valid() && IsLog(g, log)
    ensures |Blocks(log)| == |log.full| * g.BlocksPerPage() + |log.tail|
    ensures Retained(g, log) <= |Blocks(log)|
    ensures
      var promised := (g.sectors - 2) * PAGES_PER_SECTOR * g.BlocksPerPage();
      Retained(g, log) >= if |Blocks(log)| < promised then |Blocks(log)| else promised
  {
    ConcatLength(log.full, g.BlocksPerPage());
    MulLe(RetainedPages(g, |log.full|), |log.full|, g.BlocksPerPage());
    if |log.full| >= 16 * (g.sectors - 1) {
      MulLe(16 * (g.sectors - 2), RetainedPages(g, |log.full|), g.BlocksPerPage());
    }
  }

  // ---- finding a block ----

  /** The page of the partition that holds the `q`-th page ever written. */
  function PhysicalPage(g: Geometry, log: Log, q: nat): int
    requires g.Valid()
  {
    var base := LapBase(|log.full|, g.Pages());
    if q >= base then q - base else q - base + g.Pages()
  }

  lemma RetainedPageInImage(g: Geometry, log: Log, q: nat)
    requires g.Valid() && IsLog(g, log)
    requires |log.full| - RetainedPages(g, |log.full|) <= q <= |log.full|
    ensures 0 <= PhysicalPage(g, log, q) < g.Pages()
    ensures PageBlocks(g, log, PhysicalPage(g, log, q)) == if q == |log.full| then log.tail else log.full[q]
  {
    var n := |log.full|;
    var base := LapBase(n, g.Pages());
    LapBaseAligned(n, g.sectors);
    var lap, s := base / PAGES_PER_SECTOR, g.sectors;
    WholeSectors(base);
    assert g.Pages() == 16 * s;
    var head := n - base;
    DropAligned(n, base);
    var p := PhysicalPage(g, log, q);
    if q < base {
      assert q >= 16 * lap + head - 16 * (s - 2) - head % 16;
      assert p >= 16 * (head / 16) + 32;
    } else if head / 16 == s - 1 && q < n {
      assert n >= 16 * (s - 1);
      assert p >= 16;
    }
  }

  /** Block `r` of page `q` is block `q * blocksPerPage + r` of the list. */
  lemma BlockAt(g: Geometry, log: Log, q: nat, r: nat)
    requires g.Valid() && IsLog(g, log) && q <= |log.full|
    requires r < if q == |log.full| then |log.tail| else g.BlocksPerPage()
    ensures 0 <= q * g.BlocksPerPage() + r < |Blocks(log)|
    ensures Blocks(log)[q * g.BlocksPerPage() + r] == if q == |log.full| then log.tail[r] else log.full[q][r]
  {
    ConcatLength(log.full, g.BlocksPerPage());
    if q < |log.full| { ConcatIndex(log.full, g.BlocksPerPage(), q, r); }
  }

  /** The variables the driver keeps in memory. */
  datatype Memory = Memory(page: nat, slot: nat, count: nat, buffer: Page)

  /** What the running driver holds in memory after writing `log`. */
  function Running(g: Geometry, log: Log): Memory
    requires g.Valid()
  {
    Memory(HeadPage(g, log), |log.tail|, Retained(g, log), PageBytes(log.tail))
  }

  /** One write, on memory and flash together, in the driver's own terms. */
  lemma WriteEffect(g: Geometry, log: Log, b: Block)
    requires g.Valid() && IsLog(g, log) && IsBlock(g, b)
    ensures HeadPage(g, log) < g.Pages() && |Image(g, log)| == g.Pages()
    ensures
      var before, after := Running(g, log), Running(g, Append(g, log, b));
      var programmed := Image(g, log)[before.page := PageBytes(log.tail + [b])];
      var image := Image(g, Append(g, log, b));
      var sectorBlocks := PAGES_PER_SECTOR * g.BlocksPerPage();
      && before.count < Capacity(g)
      && after.slot == (before.slot + 1) % g.BlocksPerPage()
      && (after.slot != 0 ==>
            after == Memory(before.page, after.slot, before.count + 1, PageBytes(log.tail + [b]))
            && image == programmed)
      && (after.slot == 0 ==>
            && after.page == (before.page + 1) % g.Pages()
            && after.buffer == BLANK_PAGE
            && if after.page % PAGES_PER_SECTOR == 0
               then image == EraseSector(programmed, (after.page / PAGES_PER_SECTOR + 1) % g.sectors)
                    && after.count == if before.count + 1 > Capacity(g) - sectorBlocks
                                      then before.count + 1 - sectorBlocks else before.count + 1
               else image == programmed && after.count == before.count + 1)
  {
    hide Image, PageBlocks, Retained, Capacity, HeadPage, EraseSector;
    ImageLength(g, log);
    AppendImage(g, log, b);
    HeadStep(g, log, b);
    RetainedStep(g, log, b);
    EmptyPage();
    SmallMod(|log.tail| + 1, g.BlocksPerPage());
    SmallMod(HeadPage(g, log) + 1, g.Pages());
  }

  lemma ImageLength(g: Geometry, log: Log)
    requires g.Valid()
    ensures |Image(g, log)| == g.Pages()
  {
  }

  lemma SmallMod(x: nat, m: nat)
    requires 0 < x <= m
    ensures x % m == if x == m then 0 else x
  {
  }
}
