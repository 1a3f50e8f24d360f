/** Where a ring lies in shared memory: header, reader cursors, data slots. */
module RingLayout {
  import opened Digits
  import opened Specs

  const HEADER_SIZE: u64 := 64
  const CURSOR_SIZE: u64 := 8

  /** usize addition that is not checked wraps at 2^64. */
  function WrapAdd(x: nat, y: nat): u64
    requires x <= U64_MAX && y <= U64_MAX
  {
    if x + y <= U64_MAX then x + y else x + y - TWO_64
  }

  /** (value + align - 1) & !(align - 1), the addition unchecked. */
  function AlignUp(value: u64, align: u64): nat
    requires align > 0
  {
    BitAnd(WrapAdd(value, align - 1), U64_MAX - (align - 1))
  }

  ghost predicate PowerOfTwo(align: nat) {
    exists k :: 0 <= k < 64 && align == Pow2(k)
  }

  /** The bytes of so many elements, before the check on the product. */
  function Bytes(size: u64, count: u64): nat {
    size * count
  }

  datatype Layout = Layout(readersOffset: nat, dataOffset: nat, totalSize: nat)

  function DataOffset(align: u64, readersOffset: u64, readersSize: u64): nat
    requires align > 0
  {
    AlignUp(WrapAdd(readersOffset, readersSize), align)
  }

  /** The layout with the data at the given offset; None stands for CapacityTooSmall. */
  function LayoutAt(readersOffset: nat, dataOffset: nat, dataSize: nat): Option<Layout> {
    if dataSize > U64_MAX || dataOffset + dataSize > U64_MAX then None
    else Some(Layout(readersOffset, dataOffset, dataOffset + dataSize))
  }

  /** The layout from the sizes of the reader table and of the data, of which the products
      and the last sum are checked. */
  function LayoutOf(align: u64, readersSize: nat, dataSize: nat): Option<Layout>
    requires align > 0
  {
    var readersOffset := AlignUp(HEADER_SIZE, CURSOR_SIZE);
    if readersSize > U64_MAX || readersOffset > U64_MAX then None
    else LayoutAt(readersOffset, DataOffset(align, readersOffset, readersSize), dataSize)
  }

  function LayoutFor(size: u64, align: u64, capacity: u64, maxReaders: u64): Option<Layout>
    requires align > 0
  {
    if capacity == 0 then None else LayoutOf(align, Bytes(CURSOR_SIZE, maxReaders), Bytes(size, capacity))
  }

  // ---------------------------------------------------------------------------
  // The mask

  /** The bit trick rounds the wrapped sum down to a multiple of the alignment. */
  lemma AlignUpRoundsDown(value: u64, align: u64)
    requires align > 0 && PowerOfTwo(align)
    ensures var sum := WrapAdd(value, align - 1);
            AlignUp(value, align) == sum - sum % align
  {
    var k :| 0 <= k < 64 && align == Pow2(k);
    SixtyFourDigits();
    AndWithMask(WrapAdd(value, align - 1), 64, k);
    ClearedIsRounded(WrapAdd(value, align - 1), k);
  }

  lemma WrappedSumIsRoundedToZero(value: u64, align: u64)
    requires align > 0 && PowerOfTwo(align)
    requires value + align - 1 > U64_MAX
    ensures AlignUp(value, align) == 0
  {
    AlignUpRoundsDown(value, align);
    var sum := WrapAdd(value, align - 1);
    assert sum < align;
    ModUnique(sum, 0, align, sum);
  }

  lemma AlignUpIsRoundedUp(value: u64, align: u64)
    requires align > 0 && PowerOfTwo(align) && value + align - 1 <= U64_MAX
    ensures AlignUp(value, align) == RoundedUp(value, align)
  {
    AlignUpRoundsDown(value, align);
  }

  /** align_up gives the least multiple of the alignment not below the value, exactly when
      its unchecked addition does not overflow. */
  lemma AlignUpIsLeastIff(value: u64, align: u64)
    requires align > 0 && PowerOfTwo(align)
    ensures LeastMultiple(AlignUp(value, align), value, align) <==> value + align - 1 <= U64_MAX
  {
    if value + align - 1 <= U64_MAX {
      AlignUpIsRoundedUp(value, align);
      RoundUpIsLeast(value, align);
    } else {
      WrappedSumIsRoundedToZero(value, align);
    }
  }

  lemma AlignedStays(value: u64, align: u64)
    requires align > 0 && PowerOfTwo(align)
    requires value % align == 0 && value + align - 1 <= U64_MAX
    ensures AlignUp(value, align) == value
  {
    AlignUpIsLeastIff(value, align);
  }

  lemma SmallPowers()
    ensures PowerOfTwo(1) && PowerOfTwo(2) && PowerOfTwo(4) && PowerOfTwo(8) && PowerOfTwo(64)
  {
    assert Pow2(0) == 1;
    assert Pow2(1) == 2;
    assert Pow2(2) == 4;
    assert Pow2(3) == 8;
    Pow2Adds(3, 3);
    assert Pow2(6) == 64;
  }

  lemma HeaderIsAligned()
    ensures AlignUp(HEADER_SIZE, CURSOR_SIZE) == HEADER_SIZE
  {
    SmallPowers();
    AlignedStays(HEADER_SIZE, CURSOR_SIZE);
  }

  // ---------------------------------------------------------------------------
  // The layout

  /** Header, cursors and slots follow one another without overlap, each aligned. */
  ghost predicate Separated(layout: Layout, align: nat, readersSize: nat, dataSize: nat)
    requires align > 0
  {
    && HEADER_SIZE <= layout.readersOffset && layout.readersOffset % CURSOR_SIZE == 0
    && layout.readersOffset + readersSize <= layout.dataOffset
    && layout.dataOffset % align == 0
    && layout.dataOffset + dataSize == layout.totalSize <= U64_MAX
  }

  lemma DataOffsetIsSoundIff(align: u64, readersSize: u64)
    requires align > 0 && PowerOfTwo(align)
    ensures (var offset := DataOffset(align, HEADER_SIZE, readersSize);
             HEADER_SIZE + readersSize <= offset && offset % align == 0)
       <==> HEADER_SIZE + readersSize + align - 1 <= U64_MAX
  {
    var end := WrapAdd(HEADER_SIZE, readersSize);
    AlignUpIsLeastIff(end, align);
    if end + align - 1 <= U64_MAX {
      if HEADER_SIZE + readersSize > U64_MAX {
        AlignUpRoundsDown(end, align);
        assert DataOffset(align, HEADER_SIZE, readersSize) <= end + align - 1;
        assert DataOffset(align, HEADER_SIZE, readersSize) <= U64_MAX;
      }
    } else {
      WrappedSumIsRoundedToZero(end, align);
    }
  }

  /** A layout that is handed out is sound exactly when the unchecked sums before the data
      offset do not overflow; with a larger reader table the data lies over the header. */
  lemma LayoutIsSoundIff(size: u64, align: u64, capacity: u64, maxReaders: u64)
    requires align > 0 && PowerOfTwo(align)
    ensures var layout := LayoutFor(size, align, capacity, maxReaders);
            layout.Some? ==>
              (Separated(layout.value, align, Bytes(CURSOR_SIZE, maxReaders), Bytes(size, capacity))
               <==> HEADER_SIZE + CURSOR_SIZE * maxReaders + align - 1 <= U64_MAX)
  {
    HeaderIsAligned();
    if CURSOR_SIZE * maxReaders <= U64_MAX {
      DataOffsetIsSoundIff(align, CURSOR_SIZE * maxReaders);
    }
  }

  /** It does happen: with a reader table that ends where the address space does, any data that
      fits is handed a layout in which it lies over the header. */
  lemma DataCanCoverHeader(size: u64, align: u64, capacity: u64)
    requires align > 0 && PowerOfTwo(align) && capacity > 0 && Bytes(size, capacity) <= U64_MAX
    ensures LayoutFor(size, align, capacity, 0x1FFF_FFFF_FFFF_FFF8) == Some(Layout(64, 0, Bytes(size, capacity)))
    ensures !Separated(Layout(64, 0, Bytes(size, capacity)), align,
                       Bytes(CURSOR_SIZE, 0x1FFF_FFFF_FFFF_FFF8), Bytes(size, capacity))
  {
    HeaderIsAligned();
    assert WrapAdd(HEADER_SIZE, 8 * 0x1FFF_FFFF_FFFF_FFF8) == 0;
    assert Bytes(CURSOR_SIZE, 0x1FFF_FFFF_FFFF_FFF8) == 8 * 0x1FFF_FFFF_FFFF_FFF8;
    AlignedStays(0, align);
  }

  /** The data, put at the first aligned offset behind the cursors, runs past the address space. */
  ghost predicate DataOverflowsAt(offset: nat, size: u64, align: u64, capacity: u64, maxReaders: u64)
    requires align > 0
  {
    && LeastMultiple(offset, HEADER_SIZE + CURSOR_SIZE * maxReaders, align)
    && offset + Bytes(size, capacity) > U64_MAX
  }

  /** As long as the unchecked sums do not overflow, a layout is refused exactly for an empty
      ring or for data that does not fit the address space. */
  lemma LayoutIsRefusedIff(size: u64, align: u64, capacity: u64, maxReaders: u64)
    requires align > 0 && PowerOfTwo(align)
    requires HEADER_SIZE + CURSOR_SIZE * maxReaders + align - 1 <= U64_MAX
    ensures LayoutFor(size, align, capacity, maxReaders).None? <==>
            capacity == 0 || exists offset: nat :: DataOverflowsAt(offset, size, align, capacity, maxReaders)
  {
    HeaderIsAligned();
    var offset := DataOffset(align, HEADER_SIZE, CURSOR_SIZE * maxReaders);
    AlignUpIsLeastIff(HEADER_SIZE + CURSOR_SIZE * maxReaders, align);
    assert LeastMultiple(offset, HEADER_SIZE + CURSOR_SIZE * maxReaders, align);
    if offset + Bytes(size, capacity) > U64_MAX {
      assert DataOverflowsAt(offset, size, align, capacity, maxReaders);
    }
  }

  lemma MultiplesAdd(base: nat, size: nat, i: nat, align: nat)
    requires align > 0 && base % align == 0 && size % align == 0
    ensures (base + i * size) % align == 0
  {
    var q, p := base / align, size / align;
    assert base == q * align && size == p * align;
    assert i * size == (i * p) * align;
    Distribute(q, i * p, align);
    ModUnique(base + i * size, q + i * p, align, 0);
  }

  lemma SlotsFollow(size: nat, i: nat, j: nat)
    requires i < j
    ensures i * size + size <= j * size
  {
    Distribute(j, i, size);
    Scale(j - i, size);
  }

  /** Any slot of a sound layout is aligned, inside the mapping, clear of every cursor, and
      disjoint from every other slot. */
  lemma SlotsAreSeparate(layout: Layout, size: u64, align: u64, capacity: u64, maxReaders: u64, i: nat, j: nat, r: nat)
    requires align > 0 && size % align == 0
    requires Separated(layout, align, Bytes(CURSOR_SIZE, maxReaders), Bytes(size, capacity))
    requires i < j < capacity && r < maxReaders
    ensures (layout.dataOffset + i * size) % align == 0
    ensures layout.dataOffset + i * size + size <= layout.dataOffset + j * size
    ensures layout.dataOffset + j * size + size <= layout.totalSize
    ensures HEADER_SIZE <= layout.readersOffset + CURSOR_SIZE * r
    ensures layout.readersOffset + CURSOR_SIZE * r + CURSOR_SIZE <= layout.dataOffset
  {
    MultiplesAdd(layout.dataOffset, size, i, align);
    SlotsFollow(size, i, j);
    SlotsFollow(size, j, capacity);
    assert size * capacity == capacity * size;
  }

  lemma SmallerDivides(small: u64, big: u64)
    requires PowerOfTwo(small) && PowerOfTwo(big) && small <= big
    ensures small > 0 && big % small == 0
  {
    var k :| 0 <= k < 64 && small == Pow2(k);
    var l :| 0 <= l < 64 && big == Pow2(l);
    if l < k {
      Pow2Grows(l, k);
      assert small == big;
    } else {
      PowersDivide(k, l);
    }
    Pow2Grows(0, k);
  }

  lemma DataOffsetsAgreeIff(small: u64, big: u64, readersSize: u64)
    requires 0 < small <= big && PowerOfTwo(small) && PowerOfTwo(big)
    requires HEADER_SIZE + readersSize + big - 1 <= U64_MAX
    ensures DataOffset(small, HEADER_SIZE, readersSize) == DataOffset(big, HEADER_SIZE, readersSize)
       <==> RoundedUp(HEADER_SIZE + readersSize, small) % big == 0
  {
    var end := HEADER_SIZE + readersSize;
    SmallerDivides(small, big);
    AlignUpIsRoundedUp(end, small);
    AlignUpIsLeastIff(end, small);
    AlignUpIsLeastIff(end, big);
    RoundingsAgreeIff(end, small, big, AlignUp(end, small), AlignUp(end, big));
  }

  lemma NothingToRound(end: nat, align: u64)
    requires 0 < align <= 8 && PowerOfTwo(align) && end % 8 == 0
    ensures RoundedUp(end, align) == end
  {
    SmallPowers();
    SmallerDivides(align, 8);
    MultipleOfMultiple(end, 8, align);
    RoundedStays(end, align);
  }

  lemma LayoutOfAgreesIff(small: u64, big: u64, readersSize: u64, dataSize: nat)
    requires 0 < small <= big && PowerOfTwo(small) && PowerOfTwo(big)
    requires HEADER_SIZE + readersSize + big - 1 <= U64_MAX
    requires LayoutOf(small, readersSize, dataSize).Some? || LayoutOf(big, readersSize, dataSize).Some?
    ensures LayoutOf(small, readersSize, dataSize) == LayoutOf(big, readersSize, dataSize)
       <==> RoundedUp(HEADER_SIZE + readersSize, small) % big == 0
  {
    HeaderIsAligned();
    DataOffsetsAgreeIff(small, big, readersSize);
  }

  /** Where the reader cursors end: 64 + 8 * maxReaders. */
  function CursorsEnd(maxReaders: u64): (end: nat)
    ensures end % 8 == 0
  {
    HEADER_SIZE + Bytes(CURSOR_SIZE, maxReaders)
  }

  /** Two processes that give the element type different alignments, of which one gets a
      layout at all, find the same one exactly if the end of the cursors, rounded up to the
      smaller alignment, is a multiple of the larger one. */
  lemma LayoutsAgreeIff(size: u64, small: u64, big: u64, capacity: u64, maxReaders: u64)
    requires 0 < small <= big && PowerOfTwo(small) && PowerOfTwo(big)
    requires CursorsEnd(maxReaders) + big - 1 <= U64_MAX
    ensures var a := LayoutFor(size, small, capacity, maxReaders);
            var b := LayoutFor(size, big, capacity, maxReaders);
            a.Some? || b.Some? ==> (a == b <==> RoundedUp(CursorsEnd(maxReaders), small) % big == 0)
  {
    var readersSize, dataSize := Bytes(CURSOR_SIZE, maxReaders), Bytes(size, capacity);
    if LayoutOf(small, readersSize, dataSize).Some? || LayoutOf(big, readersSize, dataSize).Some? {
      LayoutOfAgreesIff(small, big, readersSize, dataSize);
    }
  }

  /** With the smaller alignment at most 8 there is nothing to round. */
  lemma SmallLayoutsAgreeIff(size: u64, small: u64, big: u64, capacity: u64, maxReaders: u64)
    requires 0 < small <= big && small <= 8 && PowerOfTwo(small) && PowerOfTwo(big)
    requires CursorsEnd(maxReaders) + big - 1 <= U64_MAX
    ensures var a := LayoutFor(size, small, capacity, maxReaders);
            var b := LayoutFor(size, big, capacity, maxReaders);
            a.Some? || b.Some? ==> (a == b <==> CursorsEnd(maxReaders) % big == 0)
  {
    NothingToRound(CursorsEnd(maxReaders), small);
    LayoutsAgreeIff(size, small, big, capacity, maxReaders);
  }

  lemma EightStaysAligned(end: u64, align: u64)
    requires 0 < align <= 8 && PowerOfTwo(align) && end % 8 == 0 && end + 7 <= U64_MAX
    ensures AlignUp(end, align) == end
  {
    AlignUpIsRoundedUp(end, align);
    NothingToRound(end, align);
  }

  lemma SmallAlignmentStays(align: u64, readersSize: u64)
    requires 0 < align <= 8 && PowerOfTwo(align) && readersSize % 8 == 0
    requires HEADER_SIZE + readersSize + 7 <= U64_MAX
    ensures DataOffset(align, HEADER_SIZE, readersSize) == HEADER_SIZE + readersSize
  {
    assert (HEADER_SIZE + readersSize) % 8 == 0;
    EightStaysAligned(HEADER_SIZE + readersSize, align);
  }

  lemma SmallAlignmentPacks(align: u64, readersSize: nat, dataSize: nat)
    requires 0 < align <= 8 && PowerOfTwo(align) && readersSize % 8 == 0
    requires HEADER_SIZE + readersSize + 7 <= U64_MAX
    ensures LayoutOf(align, readersSize, dataSize) == LayoutAt(HEADER_SIZE, HEADER_SIZE + readersSize, dataSize)
  {
    HeaderIsAligned();
    SmallAlignmentStays(align, readersSize);
  }

  lemma RoundedTo64()
    ensures AlignUp(72, 64) == 128
  {
    SmallPowers();
    AlignUpRoundsDown(72, 64);
  }

  /** The check on the element size does not see the alignment: types of one size and
      different alignment can disagree on where the data starts. */
  lemma AlignmentCanDisagree()
    ensures LayoutFor(64, 64, 1, 1) == Some(Layout(64, 128, 192))
    ensures LayoutFor(64, 8, 1, 1) == Some(Layout(64, 72, 136))
  {
    HeaderIsAligned();
    RoundedTo64();
    SmallPowers();
    SmallAlignmentPacks(8, 8, 64);
  }
}
