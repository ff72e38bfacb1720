/** The start-up scan: what `init` reads out of raw flash, and the proof that this is what the running system had. */
module FlashRecovery {
  import opened Sequences
  import opened FlashLayout
  import opened FlashSteps

  ghost predicate IsFlash(g: Geometry, pages: seq<Page>) {
    |pages| == g.Pages() && forall p :: 0 <= p < |pages| ==> |pages[p]| == PAGE_SIZE
  }

  /** First fully erased page at or after `from`, or the number of pages. */
  function FirstBlank(pages: seq<Page>, from: nat): (p: nat)
    requires from <= |pages|
    ensures from <= p <= |pages|
    ensures p < |pages| ==> pages[p] == BLANK_PAGE
    ensures forall k :: from <= k < p ==> pages[k] != BLANK_PAGE
    decreases |pages| - from
  {
    if from == |pages| || pages[from] == BLANK_PAGE then from else FirstBlank(pages, from + 1)
  }

  /** First slot at or after `from` of a page that does not carry the start marker, or the slots per page. */
  function FirstFree(g: Geometry, page: Page, from: nat): (k: nat)
    requires g.Accepted() && |page| == PAGE_SIZE && from <= g.BlocksPerPage()
    ensures from <= k <= g.BlocksPerPage()
    decreases g.BlocksPerPage() - from
  {
    g.SlotsFit();
    if from == g.BlocksPerPage() || page[from * g.blockSize] != BLOCK_SOF then from else FirstFree(g, page, from + 1)
  }

  /** First page at or after `from` with a free slot, or the number of pages. */
  function FirstWritable(g: Geometry, pages: seq<Page>, from: nat): (p: nat)
    requires g.Accepted() && IsFlash(g, pages) && from <= |pages|
    ensures from <= p <= |pages|
    ensures p < |pages| ==> FirstFree(g, pages[p], 0) < g.BlocksPerPage()
    ensures forall k :: from <= k < p ==> FirstFree(g, pages[k], 0) == g.BlocksPerPage()
    decreases |pages| - from
  {
    if from == |pages| || FirstFree(g, pages[from], 0) != g.BlocksPerPage() then from
    else FirstWritable(g, pages, from + 1)
  }

  /** Slots of a page that carry the start marker, from slot `from` on. */
  function MarkedSlots(g: Geometry, page: Page, from: nat): nat
    requires g.Accepted() && |page| == PAGE_SIZE && from <= g.BlocksPerPage()
    decreases g.BlocksPerPage() - from
  {
    g.SlotsFit();
    if from == g.BlocksPerPage() then 0
    else (if page[from * g.blockSize] == BLOCK_SOF then 1 else 0) + MarkedSlots(g, page, from + 1)
  }

  function MarkedInPages(g: Geometry, pages: seq<Page>, from: nat, to: nat): nat
    requires g.Accepted() && IsFlash(g, pages) && from <= to <= |pages|
    decreases |pages| - from
  {
    if from == to then 0 else MarkedSlots(g, pages[from], 0) + MarkedInPages(g, pages, from + 1, to)
  }

  datatype Head = Head(page: nat, slot: nat)

  /** Where the scan puts the write head. */
  function ScanHead(g: Geometry, pages: seq<Page>): (head: Head)
    requires g.Accepted() && IsFlash(g, pages) && FirstBlank(pages, 0) < |pages|
    ensures head.page < |pages|
    ensures head.slot < g.BlocksPerPage() || head.slot == 0
  {
    g.SlotsFit();
    var blank := FirstBlank(pages, 0);
    if blank == 0 then
      var last := (g.sectors - 1) * PAGES_PER_SECTOR;
      if pages[(g.sectors - 2) * PAGES_PER_SECTOR] == BLANK_PAGE then Head(0, 0)
      else if pages[last] == BLANK_PAGE then Head(last, 0)
      else
        var p := FirstWritable(g, pages, last);
        if p == |pages| then Head(0, 0) else Head(p, FirstFree(g, pages[p], 0))
    else
      var slot := FirstFree(g, pages[blank - 1], 0);
      if slot != g.BlocksPerPage() then Head(blank - 1, slot) else Head(blank, 0)
  }

  const SENTINEL_SECTOR: nat := 2

  /** A head on the last page with nothing at all in the sentinel sector is taken for a torn `erase_all`. */
  predicate SentinelFires(g: Geometry, pages: seq<Page>, head: Head)
    requires g.Accepted() && IsFlash(g, pages)
  {
    && head.page >= g.Pages() - 1
    && g.sectors > SENTINEL_SECTOR
    && MarkedInPages(g, pages, SENTINEL_SECTOR * PAGES_PER_SECTOR,
                     SENTINEL_SECTOR * PAGES_PER_SECTOR + PAGES_PER_SECTOR) == 0
  }

  /** The number of readable blocks the scan derives from the head. */
  function ScanCount(g: Geometry, pages: seq<Page>, head: Head): nat
    requires g.Accepted() && IsFlash(g, pages) && head.page < g.Pages()
  {
    var bpp := g.BlocksPerPage();
    MulLe(0, head.page, bpp);
    MulLe(0, head.page % PAGES_PER_SECTOR, bpp);
    MulLe(0, g.sectors - 2, PAGES_PER_SECTOR * bpp);
    var last := (g.sectors - 1) * PAGES_PER_SECTOR;
    var wrapped :=
      head.page / PAGES_PER_SECTOR >= g.sectors - 2 ||
      (head.page < g.Pages() - PAGES_PER_SECTOR && pages[last][0] == BLOCK_SOF);
    var count :=
      if wrapped then (g.sectors - 2) * (PAGES_PER_SECTOR * bpp) + (head.page % PAGES_PER_SECTOR * bpp + head.slot)
      else head.page * bpp + head.slot;
    if count > Capacity(g) then Capacity(g) else count
  }

  datatype Recovery = NoBlankPage | Recovered(memory: Memory, pages: seq<Page>)

  /** The whole start-up scan, for any flash content whatsoever. */
  function Recover(g: Geometry, pages: seq<Page>): (r: Recovery)
    requires g.Accepted() && IsFlash(g, pages)
  {
    if FirstBlank(pages, 0) == |pages| then NoBlankPage
    else
      var found := ScanHead(g, pages);
      var fires := SentinelFires(g, pages, found);
      var flash := if fires then seq(|pages|, _ => BLANK_PAGE) else pages;
      var head := if fires then Head(0, 0) else found;
      Recovered(Memory(head.page, head.slot, ScanCount(g, flash, head), flash[head.page]), flash)
  }

  // ---- exactness ----

  lemma {:induction false} FirstFreeIs(g: Geometry, blocks: seq<Block>, from: nat)
    requires g.Valid() && AllBlocks(g, blocks) && AllMarked(blocks) && from <= |blocks| <= g.BlocksPerPage()
    ensures |PageBytes(blocks)| == PAGE_SIZE
    ensures FirstFree(g, PageBytes(blocks), from) == |blocks|
    decreases |blocks| - from
  {
    PageMarkers(g, blocks);
    if from >= |blocks| {
    } else {
      FirstFreeIs(g, blocks, from + 1);
    }
  }

  /** Reading one page of the image: blank, or full, or partly filled. */
  lemma ImagePage(g: Geometry, log: Log, p: nat)
    requires g.Valid() && IsLog(g, log) && MarkedLog(log) && p < g.Pages()
    ensures |Image(g, log)| == g.Pages() && |Image(g, log)[p]| == PAGE_SIZE
    ensures Image(g, log)[p] == BLANK_PAGE <==> PageBlocks(g, log, p) == []
    ensures FirstFree(g, Image(g, log)[p], 0) == |PageBlocks(g, log, p)|
    ensures Image(g, log)[p][0] == BLOCK_SOF <==> PageBlocks(g, log, p) != []
  {
    PageBlocksOk(g, log, p);
    PageMarkers(g, PageBlocks(g, log, p));
    FirstFreeIs(g, PageBlocks(g, log, p), 0);
    if PageBlocks(g, log, p) != [] { assert 0 * g.blockSize == 0; }
  }

  lemma ImageIsFlash(g: Geometry, log: Log)
    requires g.Valid() && IsLog(g, log)
    ensures IsFlash(g, Image(g, log))
  {
    forall p: nat | p < g.Pages()
      ensures |Image(g, log)[p]| == PAGE_SIZE
    {
      PageBlocksOk(g, log, p);
      PageShape(g, PageBlocks(g, log, p));
    }
  }

  /** Which pages are full, blank, or the head's. */
  lemma PageCases(g: Geometry, log: Log, p: nat)
    requires g.Valid() && IsLog(g, log) && p < g.Pages()
    ensures
      var head, n := HeadPage(g, log), |PageBlocks(g, log, p)|;
      var lapped := |log.full| >= g.Pages();
      if p == head then n == |log.tail|
      else if p < head then
        n == if head / PAGES_PER_SECTOR == g.sectors - 1 && p / PAGES_PER_SECTOR == 0 then 0 else g.BlocksPerPage()
      else n == if !lapped || p / PAGES_PER_SECTOR <= head / PAGES_PER_SECTOR + 1 then 0 else g.BlocksPerPage()
  {
  }

  /** The flash holds what the log prescribes, as far as the scan can see. */
  ghost predicate LooksLike(g: Geometry, log: Log, pages: seq<Page>)
    requires g.Valid() && IsLog(g, log)
  {
    && IsFlash(g, pages)
    && forall p: nat :: p < g.Pages() ==>
         && (pages[p] == BLANK_PAGE <==> |PageBlocks(g, log, p)| == 0)
         && FirstFree(g, pages[p], 0) == |PageBlocks(g, log, p)|
  }

  lemma ImageLooksLikeLog(g: Geometry, log: Log)
    requires g.Valid() && IsLog(g, log) && MarkedLog(log)
    ensures LooksLike(g, log, Image(g, log))
  {
    ImageIsFlash(g, log);
    forall p: nat | p < g.Pages()
      ensures Image(g, log)[p] == BLANK_PAGE <==> |PageBlocks(g, log, p)| == 0
      ensures FirstFree(g, Image(g, log)[p], 0) == |PageBlocks(g, log, p)|
    {
      ImagePage(g, log, p);
    }
  }

  /** The first blank page is the head's page, the page after it, or page 0 when the head is in the last sector. */
  lemma FirstBlankIs(g: Geometry, log: Log, pages: seq<Page>)
    requires g.Valid() && IsLog(g, log) && LooksLike(g, log, pages)
    ensures
      var head := HeadPage(g, log);
      head < g.Pages() &&
      FirstBlank(pages, 0) ==
        if head / PAGES_PER_SECTOR == g.sectors - 1 then 0 else if |log.tail| == 0 then head else head + 1
  {
    g.PageIsWholeBlocks();
    var head := HeadPage(g, log);
    var expected := if head / PAGES_PER_SECTOR == g.sectors - 1 then 0 else if |log.tail| == 0 then head else head + 1;
    PageCases(g, log, expected);
    assert pages[expected] == BLANK_PAGE;
    forall k: nat | k < expected
      ensures pages[k] != BLANK_PAGE
    {
      PageCases(g, log, k);
    }
  }

  lemma ScanHeadInLastSector(g: Geometry, log: Log, pages: seq<Page>)
    requires g.Valid() && IsLog(g, log) && LooksLike(g, log, pages)
    requires HeadPage(g, log) / PAGES_PER_SECTOR == g.sectors - 1 && g.sectors > 2 && FirstBlank(pages, 0) == 0
    ensures ScanHead(g, pages) == Head(HeadPage(g, log), |log.tail|)
  {
    g.PageIsWholeBlocks();
    var head := HeadPage(g, log);
    var last, previous := (g.sectors - 1) * PAGES_PER_SECTOR, (g.sectors - 2) * PAGES_PER_SECTOR;
    PageCases(g, log, head);
    PageCases(g, log, last);
    PageCases(g, log, previous);
    forall k: nat | last <= k < head
      ensures FirstFree(g, pages[k], 0) == g.BlocksPerPage()
    {
      PageCases(g, log, k);
    }
  }

  lemma ScanHeadAtOrigin(g: Geometry, log: Log, pages: seq<Page>)
    requires g.Valid() && IsLog(g, log) && LooksLike(g, log, pages)
    requires HeadPage(g, log) == 0 && log.tail == [] && FirstBlank(pages, 0) == 0
    ensures ScanHead(g, pages) == Head(0, 0)
  {
    g.PageIsWholeBlocks();
    var last, previous := (g.sectors - 1) * PAGES_PER_SECTOR, (g.sectors - 2) * PAGES_PER_SECTOR;
    PageCases(g, log, last);
    PageCases(g, log, previous);
    if pages[previous] != BLANK_PAGE {
      forall k: nat | last <= k < g.Pages()
        ensures FirstFree(g, pages[k], 0) == g.BlocksPerPage()
      {
        PageCases(g, log, k);
      }
    }
  }

  /** The scan finds the head of the running system, except when a ring of two sectors has its head in sector 1. */
  lemma ScanHeadIs(g: Geometry, log: Log, pages: seq<Page>)
    requires g.Valid() && IsLog(g, log) && LooksLike(g, log, pages)
    ensures FirstBlank(pages, 0) < g.Pages()
    ensures
      var head := HeadPage(g, log);
      ScanHead(g, pages) ==
        if g.sectors == 2 && head >= PAGES_PER_SECTOR then Head(0, 0) else Head(head, |log.tail|)
  {
    FirstBlankIs(g, log, pages);
    var head := HeadPage(g, log);
    PageCases(g, log, head);
    if head / PAGES_PER_SECTOR == g.sectors - 1 {
      if g.sectors > 2 { ScanHeadInLastSector(g, log, pages); }
    } else if head == 0 && log.tail == [] {
      ScanHeadAtOrigin(g, log, pages);
    } else if log.tail == [] {
      PageCases(g, log, head - 1);
    }
  }

  lemma SentinelSilent(g: Geometry, log: Log)
    requires g.Valid() && IsLog(g, log) && MarkedLog(log) && HeadPage(g, log) < g.Pages()
    requires IsFlash(g, Image(g, log))
    ensures !SentinelFires(g, Image(g, log), Head(HeadPage(g, log), |log.tail|))
  {
    var head := HeadPage(g, log);
    if head >= g.Pages() - 1 && g.sectors > SENTINEL_SECTOR {
      var first := SENTINEL_SECTOR * PAGES_PER_SECTOR;
      g.PageIsWholeBlocks();
      PageCases(g, log, first);
      ImagePage(g, log, first);
      assert 0 * g.blockSize == 0;
      assert MarkedSlots(g, Image(g, log)[first], 0) >= 1;
    }
  }

  lemma ScanCountIs(g: Geometry, log: Log)
    requires g.Valid() && IsLog(g, log) && MarkedLog(log) && HeadPage(g, log) < g.Pages()
    requires IsFlash(g, Image(g, log))
    ensures ScanCount(g, Image(g, log), Head(HeadPage(g, log), |log.tail|)) == Retained(g, log)
  {
    var head, bpp, s := HeadPage(g, log), g.BlocksPerPage(), g.sectors;
    PageCases(g, log, (s - 1) * PAGES_PER_SECTOR);
    ImagePage(g, log, (s - 1) * PAGES_PER_SECTOR);
    g.PageIsWholeBlocks();
    CapacityBound(g, log);
    RetainedFromHead(g, log);
    SplitProduct(s - 2, head % PAGES_PER_SECTOR, bpp);
  }

  lemma SplitProduct(sectors: nat, page: nat, bpp: nat)
    ensures (PAGES_PER_SECTOR * sectors + page) * bpp == sectors * (PAGES_PER_SECTOR * bpp) + page * bpp
  {
  }

  lemma RetainedFromHead(g: Geometry, log: Log)
    requires g.Valid() && IsLog(g, log)
    ensures
      var head := HeadPage(g, log);
      RetainedPages(g, |log.full|) ==
        if head / PAGES_PER_SECTOR >= g.sectors - 2 || |log.full| >= g.Pages()
        then PAGES_PER_SECTOR * (g.sectors - 2) + head % PAGES_PER_SECTOR
        else head
  {
    LapBaseAligned(|log.full|, g.sectors);
    DropAligned(|log.full|, LapBase(|log.full|, g.Pages()));
  }

  lemma CapacityBound(g: Geometry, log: Log)
    requires g.Valid() && IsLog(g, log)
    ensures Retained(g, log) < Capacity(g)
  {
    CapacityInBlocks(g);
    RetainedPagesStep(g, |log.full|);
    var r, bpp := RetainedPages(g, |log.full|), g.BlocksPerPage();
    MulLe(r + 1, PAGES_PER_SECTOR * (g.sectors - 1), bpp);
    SectorOfBlocks(r, PAGES_PER_SECTOR * (g.sectors - 2), PAGES_PER_SECTOR * (g.sectors - 1), bpp);
  }

  /** Recovery from raw flash is exact - head, count, page cache and flash content all equal those of the running
      system - if and only if the ring has at least three sectors or its head is in sector 0. */
  lemma RecoveryIsExact(g: Geometry, log: Log)
    requires g.Valid() && IsLog(g, log) && MarkedLog(log)
    ensures IsFlash(g, Image(g, log))
    ensures Recover(g, Image(g, log)) == Recovered(Running(g, log), Image(g, log))
            <==> g.sectors >= 3 || HeadPage(g, log) < PAGES_PER_SECTOR
  {
    ImageLooksLikeLog(g, log);
    ScanHeadIs(g, log, Image(g, log));
    SentinelSilent(g, log);
    ScanCountIs(g, log);
    PageCases(g, log, HeadPage(g, log));
  }

  // ---- any flash ----

  /** No slot of the page from this one on carries the start marker. */
  ghost predicate BareFrom(g: Geometry, page: Page, from: nat)
    requires g.Accepted() && |page| == PAGE_SIZE
  {
    g.SlotsFit();
    forall k: nat :: from <= k < g.BlocksPerPage() ==> page[k * g.blockSize] != BLOCK_SOF
  }

  /** No slot of these pages does. */
  ghost predicate NoneMarked(g: Geometry, pages: seq<Page>, from: nat, to: nat)
    requires g.Accepted() && IsFlash(g, pages) && from <= to <= |pages|
  {
    forall p: nat :: from <= p < to ==> BareFrom(g, pages[p], 0)
  }

  lemma {:induction false} SlotsNoneMarked(g: Geometry, page: Page, from: nat)
    requires g.Accepted() && |page| == PAGE_SIZE && from <= g.BlocksPerPage()
    ensures MarkedSlots(g, page, from) == 0 <==> BareFrom(g, page, from)
    decreases g.BlocksPerPage() - from
  {
    g.SlotsFit();
    hide Geometry.BlocksPerPage;
    if from == g.BlocksPerPage() {
    } else {
      SlotsNoneMarked(g, page, from + 1);
    }
  }

  lemma {:induction false} PagesNoneMarked(g: Geometry, pages: seq<Page>, from: nat, to: nat)
    requires g.Accepted() && IsFlash(g, pages) && from <= to <= |pages|
    ensures MarkedInPages(g, pages, from, to) == 0 <==> NoneMarked(g, pages, from, to)
    decreases |pages| - from
  {
    hide Geometry.BlocksPerPage, MarkedSlots, BareFrom;
    if from == to {
    } else {
      g.SlotsFit();
      SlotsNoneMarked(g, pages[from], 0);
      PagesNoneMarked(g, pages, from + 1, to);
    }
  }

  /** What an erase of everything leaves when power fails in it: the head seems to be on the last page, and the third
      sector holds no block. */
  ghost predicate Torn(g: Geometry, pages: seq<Page>)
    requires g.Accepted() && IsFlash(g, pages) && FirstBlank(pages, 0) < |pages|
  {
    g.sectors >= 3 && ScanHead(g, pages).page == 16 * g.sectors - 1 && NoneMarked(g, pages, 32, 48)
  }

  /** Recovery from any flash that has a blank page: a torn erase is completed; otherwise the flash stays, the head is
      where the scan puts it, the count is within the capacity, and the buffer is the head's page. */
  lemma RecoveryOnAnyFlash(g: Geometry, pages: seq<Page>)
    requires g.Accepted() && IsFlash(g, pages) && FirstBlank(pages, 0) < |pages|
    ensures Recover(g, pages).Recovered?
    ensures
      var m, flash := Recover(g, pages).memory, Recover(g, pages).pages;
      && |flash| == |pages| && m.page < |pages| && m.buffer == flash[m.page] && m.count <= Capacity(g)
      && (Torn(g, pages) ==> m == Memory(0, 0, 0, BLANK_PAGE))
      && (Torn(g, pages) ==> forall p :: 0 <= p < |flash| ==> flash[p] == BLANK_PAGE)
      && (!Torn(g, pages) ==> flash == pages && Head(m.page, m.slot) == ScanHead(g, pages))
  {
    hide Geometry.BlocksPerPage, ScanHead;
    if g.sectors >= 3 { PagesNoneMarked(g, pages, 32, 48); }
    if Torn(g, pages) { BlankCount(g, seq(|pages|, _ => BLANK_PAGE)); }
  }

  lemma BlankCount(g: Geometry, pages: seq<Page>)
    requires g.Accepted() && IsFlash(g, pages) && g.sectors >= 3
    requires forall p :: 0 <= p < |pages| ==> pages[p] == BLANK_PAGE
    ensures ScanCount(g, pages, Head(0, 0)) == 0
  {
    hide Geometry.BlocksPerPage;
    assert pages[(g.sectors - 1) * PAGES_PER_SECTOR][0] != BLOCK_SOF;
  }
}
