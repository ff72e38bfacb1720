/** What the flash partition must hold, as a function of the blocks written since the last erase. */
module FlashLayout {
  import opened Bytes
  import opened Sequences

  type Page = seq<Byte>
  type Block = seq<Byte>

  const PAGE_SIZE: nat := 256
  const SECTOR_SIZE: nat := 4096
  const PAGES_PER_SECTOR: nat := 16
  const BLOCK_SOF: Byte := 0xAA
  const ERASED: Byte := 0xFF

  const BLANK_PAGE: Page := Fill(ERASED, PAGE_SIZE)

  /** A partition of `sectors` whole sectors cut into blocks of `blockSize` bytes. */
  datatype Geometry = Geometry(sectors: nat, blockSize: nat) {
    /** What `init` accepts. */
    predicate Accepted() {
      sectors >= 2 && blockSize >= 1 && PAGE_SIZE % blockSize == 0
    }

    /** What works: with one-byte blocks the number of blocks per page does not fit its field. */
    predicate Valid() {
      Accepted() && blockSize >= 2
    }

    /** The field is a `uint8_t`. */
    function BlocksPerPage(): nat
      requires blockSize > 0
    {
      PAGE_SIZE / blockSize % 256
    }

    /** The truncation loses the value for one-byte blocks, and only for them. */
    lemma FieldIsExact()
      requires blockSize > 0 && PAGE_SIZE % blockSize == 0
      ensures BlocksPerPage() == PAGE_SIZE / blockSize <==> blockSize != 1
      ensures blockSize == 1 ==> BlocksPerPage() == 0
      ensures blockSize != 1 ==> BlocksPerPage() * blockSize == PAGE_SIZE && 1 <= BlocksPerPage() <= 128
    {
      var exact := PAGE_SIZE / blockSize;
      assert exact * blockSize == PAGE_SIZE;
      if blockSize >= 2 {
        MulLe(2, blockSize, exact);
        assert exact <= 128 && exact >= 1;
      }
    }

    /** Every slot lies inside the page. */
    lemma SlotsFit()
      requires Accepted()
      ensures forall k: nat :: k <= BlocksPerPage() ==> k * blockSize <= PAGE_SIZE
      ensures forall k: nat :: k < BlocksPerPage() ==> k * blockSize + blockSize <= PAGE_SIZE
    {
      FieldIsExact();
      hide BlocksPerPage;
      forall k: nat | k <= BlocksPerPage()
        ensures k * blockSize <= PAGE_SIZE
        ensures k < BlocksPerPage() ==> k * blockSize + blockSize <= PAGE_SIZE
      {
        MulLe(k, BlocksPerPage(), blockSize);
        if k < BlocksPerPage() {
          MulLe(k + 1, BlocksPerPage(), blockSize);
          assert (k + 1) * blockSize == k * blockSize + blockSize;
        }
      }
    }

    function Pages(): nat {
      PAGES_PER_SECTOR * sectors
    }

    lemma PageIsWholeBlocks()
      requires Valid()
      ensures BlocksPerPage() * blockSize == PAGE_SIZE
      ensures 1 <= BlocksPerPage() <= 128
      ensures forall k: nat :: k <= BlocksPerPage() ==> k * blockSize <= PAGE_SIZE
      ensures forall k: nat :: k < BlocksPerPage() ==> k * blockSize + blockSize <= PAGE_SIZE
    {
      FieldIsExact();
      SlotsFit();
    }
  }

  predicate IsBlock(g: Geometry, b: Block) {
    |b| == g.blockSize
  }

  /** The start marker by which the start-up scan recognises a block. */
  predicate IsMarked(b: Block) {
    |b| > 0 && b[0] == BLOCK_SOF
  }

  /** Everything written since the last erase: completed pages, and the blocks of the page in progress. */
  datatype Log = Log(full: seq<seq<Block>>, tail: seq<Block>)

  const EMPTY_LOG := Log([], [])

  ghost predicate AllBlocks(g: Geometry, blocks: seq<Block>) {
    forall k :: 0 <= k < |blocks| ==> IsBlock(g, blocks[k])
  }

  ghost predicate IsLog(g: Geometry, log: Log)
    requires g.Valid()
  {
    && (forall q :: 0 <= q < |log.full| ==> |log.full[q]| == g.BlocksPerPage() && AllBlocks(g, log.full[q]))
    && |log.tail| < g.BlocksPerPage()
    && AllBlocks(g, log.tail)
  }

  ghost predicate AllMarked(blocks: seq<Block>) {
    forall k :: 0 <= k < |blocks| ==> IsMarked(blocks[k])
  }

  /** Every block carries the start marker. */
  ghost predicate MarkedLog(log: Log) {
    (forall q :: 0 <= q < |log.full| ==> AllMarked(log.full[q])) && AllMarked(log.tail)
  }

  /** The plain list a log stands for, oldest block first. */
  function Blocks(log: Log): seq<Block> {
    Concat(log.full) + log.tail
  }

  function Append(g: Geometry, log: Log, b: Block): Log
    requires g.Valid()
  {
    if |log.tail| + 1 == g.BlocksPerPage() then Log(log.full + [log.tail + [b]], []) else Log(log.full, log.tail + [b])
  }

  lemma AppendIsSnoc(g: Geometry, log: Log, b: Block)
    requires g.Valid() && IsLog(g, log) && IsBlock(g, b)
    ensures IsLog(g, Append(g, log, b))
    ensures Blocks(Append(g, log, b)) == Blocks(log) + [b]
    ensures MarkedLog(log) && IsMarked(b) ==> MarkedLog(Append(g, log, b))
  {
    hide IsBlock, IsMarked, Concat, Geometry.BlocksPerPage;
    SnocBlocks(g, log.tail, b);
    BppPositive(g);
    ConcatSnoc(log.full, log.tail + [b]);
  }

  lemma BppPositive(g: Geometry)
    requires g.Valid()
    ensures g.BlocksPerPage() >= 1
  {
    g.FieldIsExact();
  }

  lemma SnocBlocks(g: Geometry, blocks: seq<Block>, b: Block)
    requires AllBlocks(g, blocks) && IsBlock(g, b)
    ensures AllBlocks(g, blocks + [b])
    ensures AllMarked(blocks) && IsMarked(b) ==> AllMarked(blocks + [b])
  {
  }

  /** The number of pages written before the current lap around a ring of `pages` pages began. */
  function LapBase(n: nat, pages: nat): (base: nat)
    requires pages > 0
    ensures base <= n < base + pages
    ensures base == 0 <==> n < pages
  {
    if n < pages then 0 else pages + LapBase(n - pages, pages)
  }

  lemma {:induction false} LapBaseStep(n: nat, pages: nat)
    requires pages > 0
    ensures LapBase(n + 1, pages) == if n + 1 == LapBase(n, pages) + pages then n + 1 else LapBase(n, pages)
  {
    if n < pages {
    } else {
      LapBaseStep(n - pages, pages);
    }
  }

  lemma {:induction false} LapBaseAligned(n: nat, sectors: nat)
    requires sectors > 0
    ensures LapBase(n, PAGES_PER_SECTOR * sectors) % PAGES_PER_SECTOR == 0
    decreases n
  {
    if n < PAGES_PER_SECTOR * sectors {
    } else {
      LapBaseAligned(n - PAGES_PER_SECTOR * sectors, sectors);
    }
  }

  lemma {:induction false} LapBaseIsMultiple(k: nat, pages: nat)
    requires pages > 0
    ensures LapBase(k * pages, pages) == k * pages
  {
    if k == 0 {
    } else {
      assert k * pages == (k - 1) * pages + pages;
      LapBaseIsMultiple(k - 1, pages);
    }
  }

  /** Position of the write head: its page inside the partition. */
  function HeadPage(g: Geometry, log: Log): nat
    requires g.Valid()
  {
    |log.full| - LapBase(|log.full|, g.Pages())
  }

  /** The blocks page `p` of the partition must hold. The head's sector is blank after the head, the sector after
      it is blank altogether, and the other sectors keep what the last lap wrote. */
  function PageBlocks(g: Geometry, log: Log, p: nat): seq<Block>
    requires g.Valid() && p < g.Pages()
  {
    var base := LapBase(|log.full|, g.Pages());
    var head := |log.full| - base;
    if p == head then log.tail
    else if p < head then
      if head / PAGES_PER_SECTOR == g.sectors - 1 && p / PAGES_PER_SECTOR == 0 then [] else log.full[base + p]
    else if base == 0 || p / PAGES_PER_SECTOR <= head / PAGES_PER_SECTOR + 1 then []
    else log.full[base - g.Pages() + p]
  }

  /** A page holding `blocks` from its start, the rest erased. */
  function PageBytes(blocks: seq<Block>): Page {
    var used := Concat(blocks);
    used + Fill(ERASED, if |used| <= PAGE_SIZE then PAGE_SIZE - |used| else 0)
  }

  /** The whole partition, page by page. */
  function Image(g: Geometry, log: Log): seq<Page>
    requires g.Valid()
  {
    seq(g.Pages(), p requires 0 <= p < g.Pages() => PageBytes(PageBlocks(g, log, p)))
  }

  /** Completed pages that are still readable. */
  function RetainedPages(g: Geometry, n: nat): nat
    requires g.Valid()
  {
    if n < PAGES_PER_SECTOR * (g.sectors - 1) then n
    else PAGES_PER_SECTOR * (g.sectors - 2) + n % PAGES_PER_SECTOR
  }

  /** Blocks that are still readable. */
  function Retained(g: Geometry, log: Log): nat
    requires g.Valid()
  {
    RetainedPages(g, |log.full|) * g.BlocksPerPage() + |log.tail|
  }

  function Capacity(g: Geometry): nat
    requires g.Accepted()
  {
    (g.sectors - 1) * SECTOR_SIZE / g.blockSize
  }

  // ---- single pages ----

  lemma PageBlocksOk(g: Geometry, log: Log, p: nat)
    requires g.Valid() && IsLog(g, log) && p < g.Pages()
    ensures AllBlocks(g, PageBlocks(g, log, p)) && |PageBlocks(g, log, p)| <= g.BlocksPerPage()
    ensures MarkedLog(log) ==> AllMarked(PageBlocks(g, log, p))
  {
    hide AllBlocks, AllMarked, Geometry.BlocksPerPage;
    NoBlocks(g);
    BppPositive(g);
  }

  lemma NoBlocks(g: Geometry)
    ensures AllBlocks(g, []) && AllMarked([])
  {
  }

  lemma EmptyPage()
    ensures PageBytes([]) == BLANK_PAGE
  {
  }

  /** A page has its size, and what follows its blocks is erased. */
  lemma PageShape(g: Geometry, blocks: seq<Block>)
    requires g.Valid() && AllBlocks(g, blocks) && |blocks| <= g.BlocksPerPage()
    ensures |PageBytes(blocks)| == PAGE_SIZE && |blocks| * g.blockSize <= PAGE_SIZE
    ensures |Concat(blocks)| == |blocks| * g.blockSize
    ensures |blocks| < g.BlocksPerPage() ==>
              |blocks| * g.blockSize < PAGE_SIZE && PageBytes(blocks)[|blocks| * g.blockSize] == ERASED
  {
    hide Geometry.BlocksPerPage;
    g.PageIsWholeBlocks();
    ConcatLength(blocks, g.blockSize);
  }

  /** Byte `k * blockSize` of a page is the start marker exactly for the blocks the page holds. */
  lemma PageMarkers(g: Geometry, blocks: seq<Block>)
    requires g.Valid() && AllBlocks(g, blocks) && AllMarked(blocks) && |blocks| <= g.BlocksPerPage()
    ensures |PageBytes(blocks)| == PAGE_SIZE
    ensures forall k: nat :: k < |blocks| ==>
              k * g.blockSize < PAGE_SIZE && PageBytes(blocks)[k * g.blockSize] == BLOCK_SOF
    ensures |blocks| < g.BlocksPerPage() ==>
              |blocks| * g.blockSize < PAGE_SIZE && PageBytes(blocks)[|blocks| * g.blockSize] == ERASED
    ensures PageBytes(blocks) == BLANK_PAGE <==> blocks == []
  {
    hide Geometry.BlocksPerPage;
    PageShape(g, blocks);
    forall k: nat | k < |blocks|
      ensures k * g.blockSize < PAGE_SIZE && PageBytes(blocks)[k * g.blockSize] == BLOCK_SOF
    {
      ConcatIndex(blocks, g.blockSize, k, 0);
    }
    if blocks == [] {
      EmptyPage();
    } else {
      assert PageBytes(blocks)[0 * g.blockSize] == BLOCK_SOF;
      assert BLANK_PAGE[0] == ERASED;
    }
  }

  /** The bytes of slot `k` of a page. */
  function Slot(g: Geometry, page: Page, k: nat): seq<Byte>
    requires g.Valid() && |page| == PAGE_SIZE && k < g.BlocksPerPage()
  {
    g.PageIsWholeBlocks();
    page[k * g.blockSize..k * g.blockSize + g.blockSize]
  }

  /** Reading slot `k` of a page gives back the block stored there. */
  lemma PageSlot(g: Geometry, blocks: seq<Block>, k: nat)
    requires g.Valid() && AllBlocks(g, blocks) && |blocks| <= g.BlocksPerPage() && k < |blocks|
    ensures |PageBytes(blocks)| == PAGE_SIZE
    ensures Slot(g, PageBytes(blocks), k) == blocks[k]
  {
    hide Geometry.BlocksPerPage;
    PageShape(g, blocks);
    ConcatSlice(blocks, g.blockSize, k);
    var at := k * g.blockSize;
    assert PageBytes(blocks)[at..at + g.blockSize] == Concat(blocks)[at..at + g.blockSize];
  }

  /** Overwriting the first free slot of a page with `b` gives the page that holds one block more. */
  lemma PageSnoc(g: Geometry, blocks: seq<Block>, b: Block)
    requires g.Valid() && AllBlocks(g, blocks) && |blocks| < g.BlocksPerPage() && IsBlock(g, b)
    ensures |PageBytes(blocks)| == PAGE_SIZE
    ensures |blocks| * g.blockSize + g.blockSize <= PAGE_SIZE
    ensures PageBytes(blocks + [b]) ==
            PageBytes(blocks)[..|blocks| * g.blockSize] + b + PageBytes(blocks)[|blocks| * g.blockSize + g.blockSize..]
    ensures forall j :: |blocks| * g.blockSize <= j < PAGE_SIZE ==> PageBytes(blocks)[j] == ERASED
  {
    hide Geometry.BlocksPerPage;
    g.PageIsWholeBlocks();
    PageShape(g, blocks);
    PageShape(g, blocks + [b]);
    ConcatSnoc(blocks, b);
  }

  // ---- programming flash ----

  /** NOR programming can only clear bits: the result is the bitwise AND of old content and data. */
  function And(x: Page, y: Page): Page
    requires |x| == |y|
  {
    seq(|x|, j requires 0 <= j < |x| => x[j] & y[j])
  }

  /** Programming a page that still holds `blocks` with the buffer that holds one block more stores exactly the
      buffer: no bit has to go from 0 to 1. */
  lemma ProgramIsExact(g: Geometry, blocks: seq<Block>, b: Block)
    requires g.Valid() && AllBlocks(g, blocks) && |blocks| < g.BlocksPerPage() && IsBlock(g, b)
    ensures |PageBytes(blocks)| == |PageBytes(blocks + [b])| == PAGE_SIZE
    ensures And(PageBytes(blocks), PageBytes(blocks + [b])) == PageBytes(blocks + [b])
  {
    hide Geometry.BlocksPerPage;
    PageSnoc(g, blocks, b);
    PageShape(g, blocks + [b]);
    var old_, new_ := PageBytes(blocks), PageBytes(blocks + [b]);
    forall j | 0 <= j < PAGE_SIZE
      ensures old_[j] & new_[j] == new_[j]
    {
      if j < |blocks| * g.blockSize { assert old_[j] == new_[j]; } else { assert old_[j] == ERASED; }
    }
  }

  function EraseSector(pages: seq<Page>, sector: nat): (r: seq<Page>)
    ensures |r| == |pages|
  {
    seq(|pages|, p requires 0 <= p < |pages| => if p / PAGES_PER_SECTOR == sector then BLANK_PAGE else pages[p])
  }
}
