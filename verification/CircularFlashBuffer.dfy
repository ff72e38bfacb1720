/** The flash ring driver: a class over the partition, with every method proved against the list it stands for. */
module CircularFlashBuffer {
  import opened Basics
  import opened Bytes
  import opened Sequences
  import opened FlashLayout
  import opened FlashSteps
  import opened FlashRecovery
  import opened FlashRuns

  datatype Status = Ok | InvalidArg | NotFound | InvalidSize | InvalidState | NotSupported

  /** The flash chip behind the partition: pages are read and programmed, sectors are erased. */
  class Partition {
    var pages: seq<Page>

    ghost predicate Valid()
      reads this
    {
      |pages| % PAGES_PER_SECTOR == 0 && forall p :: 0 <= p < |pages| ==> |pages[p]| == PAGE_SIZE
    }

    /** Programs one page. A program that fails is taken to leave the page as it was. */
    method Program(p: nat, data: Page, succeeds: bool)
      requires Valid() && p < |pages| && |data| == PAGE_SIZE
      modifies this
      ensures Valid() && pages == if succeeds then old(pages)[p := And(old(pages)[p], data)] else old(pages)
    {
      if succeeds { pages := pages[p := And(pages[p], data)]; }
    }

    method Erase(sector: nat)
      requires Valid()
      modifies this
      ensures Valid() && pages == EraseSector(old(pages), sector)
    {
      pages := EraseSector(pages, sector);
    }

    method EraseAll()
      requires Valid()
      modifies this
      ensures Valid() && pages == seq(|old(pages)|, _ => BLANK_PAGE)
    {
      pages := seq(|pages|, _ => BLANK_PAGE);
    }
  }

  /** Why `init` refuses: a block size that does not divide the page, no partition, a partition of one sector, or no
      erased page anywhere. */
  ghost predicate Rejects(flash: Option<seq<Page>>, size: nat, status: Status) {
    if size == 0 || PAGE_SIZE % size != 0 then status == InvalidArg
    else if flash == None then status == NotFound
    else if |flash.value| / PAGES_PER_SECTOR < 2 then status == InvalidSize
    else status == InvalidState && FirstBlank(flash.value, 0) == |flash.value|
  }

  class Driver {
    var partition: Partition?
    var blockSize: nat
    var blocksPerPage: nat
    var enabled: bool
    var ready: bool
    var nowWritePage: nat
    var blockPageIndex: nat
    var blockCount: nat
    var maxRetainedBlocks: nat
    var totalPages: nat
    var totalSectors: nat
    const pageBuffer: array<Byte>
    /** Everything written since the last erase. */
    ghost var log: Log

    ghost function Shape(): Geometry
      reads this
    {
      Geometry(totalSectors, blockSize)
    }

    ghost function Memory(): FlashSteps.Memory
      reads this, pageBuffer
    {
      FlashSteps.Memory(nowWritePage, blockPageIndex, blockCount, pageBuffer[..])
    }

    /** The variables and the flash, whatever it holds. */
    ghost function Ring(): FlashRuns.Ring
      requires partition != null
      reads this, partition, pageBuffer
    {
      FlashRuns.Ring(Memory(), partition.pages)
    }

    /** The driver is attached to a partition whose parameters its fields repeat. */
    ghost predicate Attached()
      reads this, partition
    {
      && partition != null && partition.Valid()
      && Shape().Accepted()
      && |partition.pages| == Shape().Pages() == totalPages
      && blocksPerPage == Shape().BlocksPerPage()
      && maxRetainedBlocks == Capacity(Shape())
    }

    /** Enough to work on: the variables point into the partition. The flash may hold anything. */
    ghost predicate Steady()
      reads this, partition, pageBuffer
    {
      && pageBuffer.Length == PAGE_SIZE
      && (ready ==> Attached() && Shaped(Shape(), Ring()))
    }

    /** The partition and the variables are exactly what the list of writes prescribes. */
    ghost predicate Valid()
      reads this, partition, pageBuffer
    {
      && Steady()
      && (ready ==> Holds(Shape(), Ring(), log))
    }

    /** The readable list, oldest block first. */
    ghost function Contents(): seq<Block>
      reads this
    {
      Blocks(log)
    }

    constructor ()
      ensures Valid() && !ready && enabled && fresh(pageBuffer)
    {
      partition, blockSize, blocksPerPage := null, 0, 0;
      enabled, ready := true, false;
      nowWritePage, blockPageIndex, blockCount, maxRetainedBlocks, totalPages, totalSectors := 0, 0, 0, 0, 0, 0;
      pageBuffer := new Byte[PAGE_SIZE];
      log := EMPTY_LOG;
    }

    method ClearBuffer()
      requires pageBuffer.Length == PAGE_SIZE
      modifies pageBuffer
      ensures pageBuffer[..] == BLANK_PAGE
    {
      forall j | 0 <= j < PAGE_SIZE { pageBuffer[j] := ERASED; }
    }

    /** `memcpy` of `data` into the page buffer. */
    method CopyToBuffer(offset: nat, data: seq<Byte>)
      requires pageBuffer.Length == PAGE_SIZE && offset + |data| <= PAGE_SIZE
      modifies pageBuffer
      ensures pageBuffer[..] == old(pageBuffer[..offset]) + data + old(pageBuffer[offset + |data|..])
    {
      forall j | offset <= j < offset + |data| { pageBuffer[j] := data[j - offset]; }
    }

    method EmptyBlockIndex(page: Page) returns (index: nat)
      requires Attached() && |page| == PAGE_SIZE
      ensures index == FirstFree(Shape(), page, 0)
    {
      Shape().SlotsFit();
      index := 0;
      while index < blocksPerPage
        invariant index <= blocksPerPage
        invariant FirstFree(Shape(), page, 0) == FirstFree(Shape(), page, index)
      {
        if page[index * blockSize] != BLOCK_SOF { return; }
        index := index + 1;
      }
    }

    method CountValidBlocksInSector(sector: nat) returns (count: nat)
      requires Attached() && sector < totalSectors
      ensures count == MarkedInPages(Shape(), partition.pages, sector * PAGES_PER_SECTOR,
                                     sector * PAGES_PER_SECTOR + PAGES_PER_SECTOR)
    {
      Shape().SlotsFit();
      var pages, first := partition.pages, sector * PAGES_PER_SECTOR;
      count := 0;
      var page := 0;
      while page < PAGES_PER_SECTOR
        invariant page <= PAGES_PER_SECTOR
        invariant count + MarkedInPages(Shape(), pages, first + page, first + PAGES_PER_SECTOR)
               == MarkedInPages(Shape(), pages, first, first + PAGES_PER_SECTOR)
      {
        var buffer, block, before := pages[first + page], 0, count;
        while block < blocksPerPage
          invariant block <= blocksPerPage
          invariant count + MarkedSlots(Shape(), buffer, block) == before + MarkedSlots(Shape(), buffer, 0)
        {
          if buffer[block * blockSize] == BLOCK_SOF { count := count + 1; }
          block := block + 1;
        }
        page := page + 1;
      }
    }

    /** The scan for the first fully erased page. */
    method FindBlankPage() returns (page: nat)
      requires Attached()
      ensures page == FirstBlank(partition.pages, 0)
    {
      page := 0;
      while page < totalPages
        invariant page <= totalPages
        invariant FirstBlank(partition.pages, page) == FirstBlank(partition.pages, 0)
      {
        if partition.pages[page] == BLANK_PAGE { return; }
        page := page + 1;
      }
    }

    /** The scan of the last sector for a page with a free slot. */
    method FindWritablePage(from: nat) returns (page: nat, index: nat)
      requires Attached() && from <= totalPages
      ensures page == FirstWritable(Shape(), partition.pages, from)
      ensures page < totalPages ==> index == FirstFree(Shape(), partition.pages[page], 0)
    {
      page, index := from, 0;
      while page < totalPages
        invariant from <= page <= totalPages
        invariant FirstWritable(Shape(), partition.pages, page) == FirstWritable(Shape(), partition.pages, from)
      {
        index := EmptyBlockIndex(partition.pages[page]);
        if index != blocksPerPage { return; }
        page := page + 1;
      }
    }

    /** Steps 3 and 4 of `init`: locate the first blank page and from it the write head. */
    method LocateHead() returns (found: bool)
      requires Attached()
      modifies this`nowWritePage, this`blockPageIndex
      ensures found <==> FirstBlank(partition.pages, 0) < totalPages
      ensures found ==> Head(nowWritePage, blockPageIndex) == ScanHead(Shape(), partition.pages)
    {
      hide FirstBlank, FirstWritable, FirstFree, Geometry.BlocksPerPage;
      var pages := partition.pages;
      var blank := FindBlankPage();
      if blank == totalPages { return false; }
      found, nowWritePage := true, blank;
      if nowWritePage == 0 {
        var last := (totalSectors - 1) * PAGES_PER_SECTOR;
        var previous := (totalSectors - 2) * PAGES_PER_SECTOR;
        var lastStarted := pages[last] != BLANK_PAGE;
        var previousStarted := pages[previous] != BLANK_PAGE;
        if !previousStarted {
          nowWritePage, blockPageIndex := 0, 0;
        } else if !lastStarted {
          nowWritePage, blockPageIndex := last, 0;
        } else {
          var page, index := FindWritablePage(last);
          if page < totalPages {
            nowWritePage, blockPageIndex := page, index;
          } else {
            nowWritePage, blockPageIndex := 0, 0;
          }
        }
      } else {
        var index := EmptyBlockIndex(pages[nowWritePage - 1]);
        if index != blocksPerPage {
          nowWritePage, blockPageIndex := nowWritePage - 1, index;
        } else {
          blockPageIndex := 0;
        }
      }
    }

    /** Step 5 of `init`: a head on the last page with an empty sentinel sector means a torn erase. */
    method CheckSentinel()
      requires Attached() && pageBuffer.Length == PAGE_SIZE && nowWritePage < totalPages
      modifies this`nowWritePage, this`blockPageIndex, pageBuffer, partition
      ensures Attached()
      ensures
        var fires := SentinelFires(old(Shape()), old(partition.pages), Head(old(nowWritePage), old(blockPageIndex)));
        if fires
        then nowWritePage == blockPageIndex == 0 && partition.pages == seq(|old(partition.pages)|, _ => BLANK_PAGE)
        else nowWritePage == old(nowWritePage) && blockPageIndex == old(blockPageIndex)
             && partition.pages == old(partition.pages)
    {
      hide MarkedInPages;
      if nowWritePage >= totalPages - 1 && totalSectors > SENTINEL_SECTOR {
        var marked := CountValidBlocksInSector(SENTINEL_SECTOR);
        if marked == 0 {
          partition.EraseAll();
          nowWritePage, blockPageIndex := 0, 0;
          ClearBuffer();
        }
      }
    }

    /** Step 6 of `init`: the count follows from the head and from whether the ring has wrapped. */
    method DeriveCount()
      requires Attached() && nowWritePage < totalPages && totalSectors >= 2
      modifies this`blockCount
      ensures blockCount == ScanCount(Shape(), partition.pages, Head(nowWritePage, blockPageIndex))
    {
      hide Capacity, Geometry.BlocksPerPage, Geometry.Valid;
      MulLe(0, nowWritePage, blocksPerPage);
      MulLe(0, nowWritePage % PAGES_PER_SECTOR, blocksPerPage);
      MulLe(0, totalSectors - 2, PAGES_PER_SECTOR * blocksPerPage);
      var currentSector := nowWritePage / PAGES_PER_SECTOR;
      var wrapped := currentSector >= totalSectors - 2;
      if !wrapped && nowWritePage < totalPages - PAGES_PER_SECTOR {
        var lastStart := (totalSectors - 1) * PAGES_PER_SECTOR;
        wrapped := partition.pages[lastStart][0] == BLOCK_SOF;
      }
      if !wrapped {
        blockCount := nowWritePage * blocksPerPage + blockPageIndex;
      } else {
        var offset := nowWritePage % PAGES_PER_SECTOR * blocksPerPage + blockPageIndex;
        blockCount := (totalSectors - 2) * (PAGES_PER_SECTOR * blocksPerPage) + offset;
      }
      if blockCount > maxRetainedBlocks { blockCount := maxRetainedBlocks; }
    }

    /** Steps 5 to 7 of `init`, ending with the page cache. */
    method FinishRecovery()
      requires Attached() && pageBuffer.Length == PAGE_SIZE && FirstBlank(partition.pages, 0) < totalPages
      requires Head(nowWritePage, blockPageIndex) == ScanHead(Shape(), partition.pages)
      modifies this`nowWritePage, this`blockPageIndex, this`blockCount, pageBuffer, partition
      ensures Attached()
      ensures Recover(old(Shape()), old(partition.pages)) == Recovered(Memory(), partition.pages)
    {
      hide FirstBlank, ScanHead, SentinelFires, ScanCount, Capacity;
      CheckSentinel();
      DeriveCount();
      CopyToBuffer(0, partition.pages[nowWritePage]);
    }

    /** The body of `init`, for any flash content: the outcome is the one `Recover` computes from the raw bytes. */
    method Start(found: Partition?, size: nat) returns (status: Status)
      requires pageBuffer.Length == PAGE_SIZE
      requires found != null ==> found.Valid()
      modifies this`partition, this`nowWritePage, this`blockPageIndex, this`blockCount, pageBuffer, found
      modifies this`blockSize, this`blocksPerPage, this`totalPages, this`totalSectors, this`maxRetainedBlocks
      ensures status != Ok ==> Rejects(if found == null then None else Some(old(found.pages)), size, status)
      ensures status != Ok && found != null ==> found.pages == old(found.pages)
      ensures status == Ok ==> found != null && partition == found && Attached() && blockSize == size
      ensures status == Ok ==> |old(found.pages)| == |found.pages| && IsFlash(Shape(), old(found.pages))
      ensures status == Ok ==> Recover(Shape(), old(found.pages)) == Recovered(Memory(), found.pages)
    {
      if size == 0 || PAGE_SIZE % size != 0 { return InvalidArg; }
      if found == null { return NotFound; }
      partition := found;
      status := Configure(size);
      if status != Ok { return; }
      hide Recover, FirstBlank, ScanHead, Capacity, Geometry.BlocksPerPage;
      RecoverFails(Shape(), found.pages);
      ClearBuffer();
      var located := LocateHead();
      if !located { return InvalidState; }
      FinishRecovery();
    }

    /** `init`. Whatever the flash holds, the driver then points into it, unless blocks are of one byte. If the flash
        holds the image of a log of marked blocks - the state any earlier run left behind - then with three or more
        sectors, or with the head in sector 0, the driver comes back exactly as it was and the flash is untouched. */
    method Init(found: Partition?, size: nat, ghost last: Log) returns (status: Status)
      requires pageBuffer.Length == PAGE_SIZE
      requires found != null ==> found.Valid()
      modifies this, pageBuffer, found
      ensures status != Ok ==> Rejects(if found == null then None else Some(old(found.pages)), size, status)
      ensures status != Ok ==> Valid() && !ready
      ensures status == Ok ==>
              found != null && ready && Attached() && Shape() == Geometry(|found.pages| / PAGES_PER_SECTOR, size)
      ensures status == Ok && size != 1 ==> Steady()
      ensures status == Ok && Shape().Valid() && IsLog(Shape(), last) && MarkedLog(last)
              && found != null && old(found.pages) == Image(Shape(), last)
              && (totalSectors >= 3 || HeadPage(Shape(), last) < PAGES_PER_SECTOR) ==>
                Valid() && log == last && found.pages == old(found.pages)
    {
      hide Recover, Image, Running, HeadPage, Capacity, IsLog, MarkedLog, Geometry.BlocksPerPage, Shaped, FirstBlank;
      ready := false;
      ghost var before := if found == null then [] else found.pages;
      status := Start(found, size);
      if status != Ok { return; }
      if size != 1 {
        RecoveredShaped(Shape(), before);
        if IsLog(Shape(), last) && MarkedLog(last) && before == Image(Shape(), last) { RecoveryIsExact(Shape(), last); }
      }
      log := last;
      ready := true;
    }

    /** Steps 1 and 2 of `init`: the shape of the ring. */
    method Configure(size: nat) returns (status: Status)
      requires partition != null && partition.Valid() && size >= 1 && PAGE_SIZE % size == 0
      modifies this`blockSize, this`blocksPerPage, this`totalPages, this`totalSectors, this`maxRetainedBlocks
      ensures Shape() == Geometry(|partition.pages| / PAGES_PER_SECTOR, size)
      ensures status == if |partition.pages| / PAGES_PER_SECTOR < 2 then InvalidSize else Ok
      ensures status == Ok ==> Attached()
    {
      blockSize := size;
      blocksPerPage := PAGE_SIZE / size % 256;
      totalPages := |partition.pages|;
      totalSectors := |partition.pages| / PAGES_PER_SECTOR;
      if totalSectors < 2 { return InvalidSize; }
      maxRetainedBlocks := (totalSectors - 1) * SECTOR_SIZE / blockSize;
      return Ok;
    }

    /** Steps 1 and 2 of `write_block`: stage the block in the page buffer and program the page, or put the buffer
        back. */
    method StoreBlock(data: Block, programSucceeds: bool)
      requires Steady() && ready && IsBlock(Shape(), data)
      modifies pageBuffer, partition
      ensures Attached()
      ensures
        var staged := Staged(Shape(), old(pageBuffer[..]), blockPageIndex, data);
        if programSucceeds then
          && pageBuffer[..] == staged
          && partition.pages == old(partition.pages)[nowWritePage := And(old(partition.pages)[nowWritePage], staged)]
        else pageBuffer[..] == old(pageBuffer[..]) && partition.pages == old(partition.pages)
    {
      hide And, Capacity, Geometry.BlocksPerPage;
      Shape().SlotsFit();
      MulLe(0, blockPageIndex, blockSize);
      ghost var before := pageBuffer[..];
      var offset := blockPageIndex * blockSize;
      var previous := pageBuffer[offset..offset + blockSize];
      CopyToBuffer(offset, data);
      assert pageBuffer[..] == before[..offset] + data + before[offset + blockSize..];
      partition.Program(nowWritePage, pageBuffer[..], programSucceeds);
      if !programSucceeds {
        CopyToBuffer(offset, previous);
        assert pageBuffer[..] == before;
      }
    }

    /** `write_block`, whatever the flash holds: exactly the step `Written`, or nothing. On a driver that holds a list,
        the block is appended to the list. */
    method WriteBlock(data: Block, programSucceeds: bool) returns (status: Status)
      requires Steady() && (ready ==> IsBlock(Shape(), data))
      modifies this`log, this`nowWritePage, this`blockPageIndex, this`blockCount, pageBuffer, partition
      ensures Steady()
      ensures status == if !ready then InvalidState else if !enabled then NotSupported
                        else if programSucceeds then Ok else InvalidState
      ensures status == Ok ==> Ring() == Written(Shape(), old(Ring()), data)
      ensures status != Ok && partition != null ==> Ring() == old(Ring())
      ensures old(Valid()) ==> Valid()
      ensures old(Valid()) ==> Contents() == if status == Ok then old(Contents()) + [data] else old(Contents())
      ensures log == if status == Ok then Append(Shape(), old(log), data) else old(log)
    {
      if !ready { return InvalidState; }
      if !enabled { return NotSupported; }
      ghost var g, before, list, exact := Shape(), Ring(), log, Valid();
      hide Written, NextPageEntered, Append, Holds, Capacity, Geometry.BlocksPerPage, Geometry.Accepted, Shaped,
        Blocks, IsLog;
      StoreBlock(data, programSucceeds);
      if !programSucceeds { return InvalidState; }
      Advance(before, data);
      log := Append(g, log, data);
      if exact { WrittenHolds(g, before, list, data); }
      return Ok;
    }

    /** Steps 3 and 4 of `write_block`, once the block is in flash: count it and move the head. */
    method Advance(ghost before: FlashRuns.Ring, ghost data: Block)
      requires Attached() && ready && pageBuffer.Length == PAGE_SIZE
      requires Shaped(Shape(), before) && IsBlock(Shape(), data)
      requires nowWritePage == before.memory.page && blockPageIndex == before.memory.slot
               && blockCount == before.memory.count
      requires pageBuffer[..] == Staged(Shape(), before.memory.buffer, before.memory.slot, data)
      requires partition.pages == before.pages[nowWritePage := And(before.pages[nowWritePage], pageBuffer[..])]
      modifies this`nowWritePage, this`blockPageIndex, this`blockCount, pageBuffer, partition
      ensures Steady() && Ring() == Written(Shape(), before, data)
    {
      hide Staged, And, Capacity, NextPageEntered, Geometry.BlocksPerPage, IsBlock;
      BppPositive(Shape());
      if blockCount < maxRetainedBlocks { blockCount := blockCount + 1; }
      blockPageIndex := (blockPageIndex + 1) % blocksPerPage;
      if blockPageIndex == 0 { EnterNextPage(); }
    }

    /** Step 4 of `write_block` after the last slot of a page: move on, and at the first page of a sector erase the
        sector after it and drop the blocks that were in it. */
    method EnterNextPage()
      requires Steady() && ready && blockPageIndex == 0
      modifies this`nowWritePage, this`blockCount, pageBuffer, partition
      ensures Steady() && Ring() == NextPageEntered(Shape(), old(Ring()))
    {
      hide Capacity, Geometry.BlocksPerPage;
      nowWritePage := (nowWritePage + 1) % totalPages;
      ClearBuffer();
      if nowWritePage % PAGES_PER_SECTOR == 0 {
        var sector := nowWritePage / PAGES_PER_SECTOR;
        partition.Erase((sector + 1) % totalSectors);
        var blocksPerSector := PAGES_PER_SECTOR * blocksPerPage;
        if blockCount > maxRetainedBlocks - blocksPerSector {
          blockCount := if blockCount >= blocksPerSector then blockCount - blocksPerSector
                        else blockCount + TWO_32 - blocksPerSector % TWO_32;
        }
      }
    }

    /** The walk of `read_block` from the newest block back over page boundaries arrives `index` slots behind the head,
        around the ring. */
    method Locate(index: nat) returns (page: nat, offset: nat)
      requires Steady() && ready
      ensures page < totalPages && offset < blocksPerPage
      ensures page == PlaceOf(Shape(), nowWritePage, blockPageIndex, index) / blocksPerPage
      ensures offset == PlaceOf(Shape(), nowWritePage, blockPageIndex, index) % blocksPerPage
    {
      hide Capacity, Geometry.BlocksPerPage, Flat, Around, IsFlash;
      BppPositive(Shape());
      ghost var bpp, head, laps := blocksPerPage, Flat(nowWritePage, blockPageIndex, blocksPerPage), 0;
      NoTurn(totalPages, bpp);
      if blockPageIndex == 0 {
        OverBack(nowWritePage, totalPages, 0, bpp);
        laps := if nowWritePage == 0 then 1 else 0;
        Turn(0, totalPages, bpp);
        page := if nowWritePage == 0 then totalPages - 1 else nowWritePage - 1;
        offset := blocksPerPage - 1;
      } else {
        page := nowWritePage;
        offset := blockPageIndex - 1;
        WithinBack(page, blockPageIndex, 1, bpp);
      }
      var remaining := index;
      while remaining > 0
        invariant remaining >= 0 && page < totalPages && offset < bpp
        invariant Flat(page, offset, bpp) - remaining == head - 1 - index + Around(laps, totalPages, bpp)
      {
        if offset >= remaining {
          WithinBack(page, offset, remaining, bpp);
          offset := offset - remaining;
          remaining := 0;
        } else {
          OverBack(page, totalPages, offset + 1, bpp);
          Turn(laps, totalPages, bpp);
          laps := if page == 0 then laps + 1 else laps;
          remaining := remaining - (offset + 1);
          page := if page == 0 then totalPages - 1 else page - 1;
          offset := blocksPerPage - 1;
        }
      }
      Arrived(Shape(), nowWritePage, blockPageIndex, index, page, offset, laps);
    }

    /** `read_block`, whatever the flash holds: the block `index` slots behind the head. On a driver that holds a list,
        index 0 is its newest block, index 1 the one before it, and so on. */
    method ReadBlock(index: nat) returns (status: Status, data: Block)
      requires Steady()
      ensures status == if !ready then InvalidState else if index >= blockCount then InvalidArg else Ok
      ensures status == Ok ==> |data| == blockSize && data == ReadAt(Shape(), Ring(), index)
      ensures status == Ok && Valid() ==> index < |Contents()| && data == Contents()[|Contents()| - 1 - index]
    {
      hide PlaceOf, ReadAt, Capacity, Geometry.BlocksPerPage, Blocks, Holds, IsFlash;
      data := [];
      if !ready { return InvalidState, data; }
      if index >= blockCount { return InvalidArg, data; }
      var page, offset := Locate(index);
      ReadAtIs(Shape(), Ring(), index, page, offset);
      if Valid() { ReadHolds(Shape(), Ring(), log, index); }
      var buffer := partition.pages[page];
      var at := offset * blockSize;
      return Ok, buffer[at..at + blockSize];
    }

    /** `erase_all`, whatever the flash holds. */
    method EraseAll() returns (status: Status)
      requires Steady()
      modifies this`log, this`nowWritePage, this`blockPageIndex, this`blockCount, pageBuffer, partition
      ensures Steady() && (old(Valid()) || status == Ok ==> Valid())
      ensures status == if ready then Ok else InvalidState
      ensures status == Ok ==> log == EMPTY_LOG && Contents() == [] && Ring() == Erased(Shape())
      ensures status != Ok ==> log == old(log)
    {
      if !ready { return InvalidState; }
      hide Holds, Shaped, Geometry.BlocksPerPage, Geometry.Accepted, Capacity, Blocks, IsFlash;
      partition.EraseAll();
      nowWritePage, blockPageIndex, blockCount := 0, 0, 0;
      ClearBuffer();
      log := EMPTY_LOG;
      assert Ring() == Erased(Shape());
      EmptyHolds(Shape());
      HoldsShaped(Shape(), Ring(), log);
      NothingListed();
      return Ok;
    }

    method SetEnabled(enable: bool)
      requires Steady()
      modifies this`enabled
      ensures Steady() && enabled == (if ready then enable else old(enabled)) && (old(Valid()) ==> Valid())
    {
      if ready { enabled := enable; }
    }
  }

  /** A slot, counted from the start of the partition. */
  ghost function Flat(page: nat, slot: nat, bpp: nat): int {
    page * bpp + slot
  }

  /** Some turns around the ring. */
  ghost function Around(laps: int, pages: nat, bpp: nat): int {
    laps * (pages * bpp)
  }

  lemma NoTurn(pages: nat, bpp: nat)
    ensures Around(0, pages, bpp) == 0
  {
  }

  lemma Turn(laps: int, pages: nat, bpp: nat)
    ensures Around(laps + 1, pages, bpp) == Around(laps, pages, bpp) + pages * bpp
  {
  }

  lemma WithinBack(page: nat, slot: nat, k: nat, bpp: nat)
    requires k <= slot
    ensures Flat(page, slot - k, bpp) == Flat(page, slot, bpp) - k
  {
  }

  /** From slot `slot - 1` of a page back over its start, to the end of the page before. */
  lemma OverBack(page: nat, pages: nat, slot: nat, bpp: nat)
    requires pages >= 1 && bpp >= 1
    ensures page >= 1 && slot == 0 ==> Flat(page - 1, bpp - 1, bpp) == Flat(page, 0, bpp) - 1
    ensures page >= 1 && slot >= 1 ==> Flat(page - 1, bpp - 1, bpp) == Flat(page, slot - 1, bpp) - slot
    ensures page == 0 && slot == 0 ==> Flat(pages - 1, bpp - 1, bpp) == Flat(page, 0, bpp) - 1 + pages * bpp
    ensures page == 0 && slot >= 1 ==> Flat(pages - 1, bpp - 1, bpp) == Flat(page, slot - 1, bpp) - slot + pages * bpp
  {
    assert (page - 1) * bpp + bpp == page * bpp;
    assert (pages - 1) * bpp + bpp == pages * bpp;
  }

  lemma Arrived(g: Geometry, headPage: nat, headSlot: nat, index: nat, page: nat, slot: nat, laps: int)
    requires g.Valid() && page < g.Pages() && slot < g.BlocksPerPage()
    requires Flat(page, slot, g.BlocksPerPage())
          == Flat(headPage, headSlot, g.BlocksPerPage()) - 1 - index + Around(laps, g.Pages(), g.BlocksPerPage())
    ensures PlaceOf(g, headPage, headSlot, index) / g.BlocksPerPage() == page
    ensures PlaceOf(g, headPage, headSlot, index) % g.BlocksPerPage() == slot
  {
    hide Geometry.BlocksPerPage;
    var bpp := g.BlocksPerPage();
    PlaceBelow(page, g.Pages(), slot, bpp);
    assert -laps * (g.Pages() * bpp) == -(laps * (g.Pages() * bpp));
    DivModIs(headPage * bpp + headSlot - 1 - index, -laps, page * bpp + slot, g.Pages() * bpp);
    DivModIs(page * bpp + slot, page, slot, bpp);
  }

  /** What the scan rebuilds points into the partition. */
  lemma RecoveredShaped(g: Geometry, pages: seq<Page>)
    requires g.Valid() && IsFlash(g, pages)
    ensures
      var r := Recover(g, pages);
      r.Recovered? ==> Shaped(g, FlashRuns.Ring(r.memory, r.pages))
  {
    hide ScanCount, SentinelFires, FirstBlank, Geometry.BlocksPerPage;
    BppPositive(g);
    hide ScanHead;
  }

  lemma RecoverFails(g: Geometry, pages: seq<Page>)
    requires g.Accepted() && IsFlash(g, pages)
    ensures Recover(g, pages) == NoBlankPage <==> FirstBlank(pages, 0) == |pages|
  {
  }

  lemma ReadAtIs(g: Geometry, ring: FlashRuns.Ring, index: nat, page: nat, slot: nat)
    requires Shaped(g, ring) && page < |ring.pages|
    requires page == PlaceOf(g, ring.memory.page, ring.memory.slot, index) / g.BlocksPerPage()
    requires slot == PlaceOf(g, ring.memory.page, ring.memory.slot, index) % g.BlocksPerPage()
    ensures 0 <= slot * g.blockSize <= slot * g.blockSize + g.blockSize <= |ring.pages[page]|
    ensures ReadAt(g, ring, index) == ring.pages[page][slot * g.blockSize..slot * g.blockSize + g.blockSize]
  {
    hide Geometry.BlocksPerPage, PlaceOf;
    BppPositive(g);
    g.SlotsFit();
    MulLe(0, slot, g.blockSize);
  }
}
