/** A bump arena: values live in chunks of memory until the arena is cleared as a whole. Addresses are numbers; what
    the system allocator promises of a new chunk is a requirement on the address it is given. */
module Arenas {
  import opened Wrappers

  datatype Layout = Layout(size: nat, align: nat)

  /** The first multiple of `align` from `address` on. */
  function AlignUp(address: nat, align: nat): nat
    requires align > 0
  {
    (address + align - 1) / align * align
  }

  lemma {:induction false} AlignUpIsFirst(address: nat, align: nat)
    requires align > 0
    ensures address <= AlignUp(address, align) < address + align
    ensures AlignUp(address, align) % align == 0
    ensures forall m: nat :: address <= m * align ==> AlignUp(address, align) <= m * align
  {
    var q := (address + align - 1) / align;
    forall m: nat | address <= m * align ensures q * align <= m * align {
      if m < q {
        MulStep(m, q, align);
        assert false;
      } else if q < m {
        MulStep(q, m, align);
      }
    }
    MulMod(q, align);
  }

  lemma {:induction false} MulStep(a: nat, b: nat, c: nat)
    requires a < b
    ensures a * c + c <= b * c
    decreases b
  {
    if a + 1 < b {
      MulStep(a, b - 1, c);
    }
    assert b * c == (b - 1) * c + c;
  }

  lemma {:induction false} MulMod(q: nat, d: nat)
    requires d > 0
    ensures q * d % d == 0
  {
    var x := q * d;
    var k, m := x / d, x % d;
    assert x == d * k + m;
    if k < q {
      MulStep(k, q, d);
    } else if q < k {
      MulStep(q, k, d);
    }
  }

  /** The address is one of the `size` addresses from `start` on. */
  predicate Covers(start: nat, size: nat, address: nat) {
    start <= address && address - start < size
  }

  predicate Apart(a: nat, aSize: nat, b: nat, bSize: nat) {
    a + aSize <= b || b + bSize <= a
  }

  /** Ranges that are not empty are apart exactly when they share no address. */
  lemma {:induction false} ApartIff(a: nat, aSize: nat, b: nat, bSize: nat)
    requires aSize > 0 && bSize > 0
    ensures Apart(a, aSize, b, bSize) <==> forall p: nat :: !(Covers(a, aSize, p) && Covers(b, bSize, p))
  {
    if a <= b {
      assert Covers(b, bSize, b);
    } else {
      assert Covers(a, aSize, a);
    }
  }

  /** A place for the layout: aligned, and in the range. */
  predicate IsPlace(layout: Layout, from: nat, to: nat, address: nat)
    requires layout.align > 0
  {
    from <= address && address + layout.size <= to && address % layout.align == 0
  }

  class Chunk {
    const start: nat
    const end: nat
    var offset: nat

    predicate Valid()
      reads this
    {
      0 < start <= offset <= end
    }

    constructor (start: nat, size: nat)
      requires 0 < start && 0 < size
      ensures this.start == start && end == start + size && offset == start
    {
      this.start, end, offset := start, start + size, start;
    }

    predicate Fits(layout: Layout)
      requires layout.align > 0
      reads this
    {
      AlignUp(offset, layout.align) + layout.size <= end
    }

    method Allocate(layout: Layout) returns (ptr: Option<nat>)
      requires Valid() && layout.align > 0
      modifies this
      ensures Valid()
      ensures ptr.Some? <==> old(Fits(layout))
      ensures ptr.Some? ==> ptr.value == AlignUp(old(offset), layout.align) && offset == ptr.value + layout.size
      ensures ptr.None? ==> offset == old(offset)
    {
      AlignUpIsFirst(offset, layout.align);
      var aligned := AlignUp(offset, layout.align);
      var next := aligned + layout.size;
      if next <= end {
        offset := next;
        return Some(aligned);
      }
      return None;
    }

    method Reset()
      requires Valid()
      modifies this
      ensures Valid() && offset == start
    {
      offset := start;
    }
  }

  /** A chunk has room for a value exactly when there is a place for it past the used part, and the first is taken. */
  lemma {:induction false} FitsIffPlace(chunk: Chunk, layout: Layout)
    requires chunk.Valid() && layout.align > 0
    ensures chunk.Fits(layout) <==> exists address: nat :: IsPlace(layout, chunk.offset, chunk.end, address)
    ensures chunk.Fits(layout) ==>
              && IsPlace(layout, chunk.offset, chunk.end, AlignUp(chunk.offset, layout.align))
              && forall address: nat :: IsPlace(layout, chunk.offset, chunk.end, address) ==>
                   AlignUp(chunk.offset, layout.align) <= address
  {
    AlignUpIsFirst(chunk.offset, layout.align);
    var first := AlignUp(chunk.offset, layout.align);
    assert chunk.Fits(layout) ==> IsPlace(layout, chunk.offset, chunk.end, first);
    forall address: nat | IsPlace(layout, chunk.offset, chunk.end, address) ensures first <= address {
      assert address == address / layout.align * layout.align;
    }
    assert (exists address: nat :: IsPlace(layout, chunk.offset, chunk.end, address)) ==> chunk.Fits(layout);
  }

  ghost function MemoryOf(chunks: seq<Chunk>): int {
    if chunks == [] then 0 else chunks[0].end - chunks[0].start + MemoryOf(chunks[1..])
  }

  lemma {:induction false} EqualChunksAddUp(chunks: seq<Chunk>, size: nat)
    requires forall c <- chunks :: c.end == c.start + size
    ensures MemoryOf(chunks) == |chunks| * size
    decreases |chunks|
  {
    if chunks != [] {
      EqualChunksAddUp(chunks[1..], size);
      assert |chunks| * size == size + (|chunks| - 1) * size;
    }
  }

  /** A shared cell: true until the arena is cleared. */
  class Flag {
    var live: bool

    constructor ()
      ensures live
    {
      live := true;
    }
  }

  /** A value in the arena; `value` names it, to tell it is dropped. */
  datatype Element = Element(address: nat, layout: Layout, value: nat)

  datatype ArenaBox = ArenaBox(address: nat, valid: Flag)

  ghost function Values(elements: seq<Element>): seq<nat> {
    seq(|elements|, i requires 0 <= i < |elements| => elements[i].value)
  }

  ghost predicate AllAligned(elements: seq<Element>) {
    forall e <- elements :: e.layout.align > 0 && e.address % e.layout.align == 0
  }

  ghost predicate AllApart(elements: seq<Element>) {
    forall i, j :: 0 <= i < j < |elements| ==>
      Apart(elements[i].address, elements[i].layout.size, elements[j].address, elements[j].layout.size)
  }

  class Arena {
    var chunks: seq<Chunk>
    var elements: seq<Element>
    var valid: Flag
    var currentChunkIndex: nat
    const chunkSize: nat
    /** The index of the chunk each element is in. */
    ghost var places: seq<nat>
    /** The flags of all epochs, the current one last; and all values ever stored and ever dropped, in order. */
    ghost var flags: seq<Flag>
    ghost var stored: seq<nat>
    ghost var dropped: seq<nat>

    ghost predicate ChunksValid()
      reads this, chunks
    {
      && 0 < chunkSize && currentChunkIndex < |chunks|
      && (forall i | 0 <= i < |chunks| :: chunks[i].Valid() && chunks[i].end == chunks[i].start + chunkSize)
      && (forall i, j | 0 <= i < j < |chunks| :: chunks[i] != chunks[j]
                                                && Apart(chunks[i].start, chunkSize, chunks[j].start, chunkSize))
    }

    /** Chunks past the current one are empty. */
    ghost predicate RestEmpty()
      reads this, chunks
    {
      forall i | currentChunkIndex < i < |chunks| :: chunks[i].offset == chunks[i].start
    }

    ghost predicate Placed(i: nat)
      requires i < |elements| && i < |places|
      reads this, chunks
    {
      && places[i] <= currentChunkIndex && places[i] < |chunks|
      && chunks[places[i]].start <= elements[i].address
      && elements[i].address + elements[i].layout.size <= chunks[places[i]].offset
    }

    /** Every element is inside the used part of its chunk, aligned, and apart from every other. */
    ghost predicate ElementsValid()
      reads this, chunks
    {
      && |places| == |elements|
      && (forall i: nat | i < |elements| :: Placed(i))
      && AllAligned(elements) && AllApart(elements)
    }

    /** Only the current epoch's flag is set. */
    ghost predicate FlagsValid()
      reads this, flags
    {
      && flags != [] && flags[|flags| - 1] == valid && valid.live
      && (forall i | 0 <= i < |flags| - 1 :: !flags[i].live && flags[i] != valid)
    }

    /** What was stored was dropped or is an element, each once. */
    ghost predicate DropsValid()
      reads this
    {
      stored == dropped + Values(elements)
    }

    ghost predicate Valid()
      reads this, chunks, flags
    {
      ChunksValid() && RestEmpty() && ElementsValid() && FlagsValid() && DropsValid()
    }

    ghost predicate Holds(box: ArenaBox, epoch: nat)
      reads this
    {
      epoch < |flags| && flags[epoch] == box.valid
    }

    ghost predicate IsNewChunk(start: nat)
      reads this, chunks
    {
      0 < start && forall c <- chunks :: Apart(c.start, chunkSize, start, chunkSize)
    }

    constructor (chunkSize: nat, start: nat)
      requires 0 < chunkSize && 0 < start
      ensures Valid() && fresh(chunks) && fresh(flags)
      ensures |chunks| == 1 && elements == [] && stored == [] && |flags| == 1
    {
      this.chunkSize := chunkSize;
      var chunk := new Chunk(start, chunkSize);
      var flag := new Flag();
      chunks, currentChunkIndex, elements, valid := [chunk], 0, [], flag;
      places, flags, stored, dropped := [], [flag], [], [];
    }

    /** The chunks all have one size, so counting them gives the memory they take up together. */
    method Capacity() returns (bytes: nat)
      requires Valid()
      ensures bytes == MemoryOf(chunks)
    {
      EqualChunksAddUp(chunks, chunkSize);
      bytes := |chunks| * chunkSize;
    }

    /** A box can be used exactly while the arena has not been cleared since the box was made. */
    method Validate(box: ArenaBox, ghost epoch: nat) returns (ok: bool)
      requires Valid() && Holds(box, epoch)
      ensures ok <==> epoch == |flags| - 1
    {
      ok := box.valid.live;
    }

    method ResetUsed()
      requires ChunksValid() && RestEmpty()
      modifies chunks
      ensures ChunksValid() && forall i | 0 <= i < |chunks| :: chunks[i].offset == chunks[i].start
    {
      var i := 0;
      while i <= currentChunkIndex
        invariant 0 <= i <= currentChunkIndex + 1
        invariant ChunksValid() && RestEmpty()
        invariant forall k | 0 <= k < i :: chunks[k].offset == chunks[k].start
      {
        chunks[i].Reset();
        i := i + 1;
      }
    }

    method Rewind()
      requires ChunksValid() && RestEmpty()
      modifies this`currentChunkIndex, chunks
      ensures ChunksValid() && RestEmpty() && currentChunkIndex == 0
      ensures forall i | 0 <= i < |chunks| :: chunks[i].offset == chunks[i].start
    {
      ResetUsed();
      currentChunkIndex := 0;
    }

    method DropElements()
      requires DropsValid()
      modifies this`elements, this`places, this`dropped
      ensures elements == [] && places == [] && dropped == stored && ElementsValid() && DropsValid()
    {
      dropped := dropped + Values(elements);
      elements, places := [], [];
    }

    method InvalidateBoxes()
      requires FlagsValid()
      modifies this`valid, this`flags, valid
      ensures FlagsValid() && fresh(valid) && flags == old(flags) + [valid]
    {
      valid.live := false;
      valid := new Flag();
      flags := flags + [valid];
    }

    /** Every element is dropped, every box invalidated, and all chunks are empty again. */
    method Clear()
      requires Valid()
      modifies this, chunks, flags
      ensures Valid() && chunks == old(chunks) && elements == [] && currentChunkIndex == 0
      ensures stored == old(stored) && dropped == stored
      ensures |flags| == |old(flags)| + 1 && old(flags) <= flags && fresh(flags[|old(flags)|])
      ensures forall i | 0 <= i < |chunks| :: chunks[i].offset == chunks[i].start
    {
      InvalidateBoxes();
      DropElements();
      Rewind();
    }

    /** The chunk the next value goes to when the current one has no room for it; added when there is none. */
    method NextChunk(start: nat) returns (chunk: Chunk)
      requires ChunksValid() && RestEmpty() && ElementsValid() && IsNewChunk(start)
      modifies this`chunks, this`currentChunkIndex
      ensures ChunksValid() && RestEmpty() && ElementsValid() && BelowOffset(chunk.offset)
      ensures currentChunkIndex == old(currentChunkIndex) + 1
      ensures chunk == chunks[currentChunkIndex] && chunk.offset == chunk.start
      ensures if currentChunkIndex < |old(chunks)| then chunks == old(chunks)
              else chunks == old(chunks) + [chunk] && fresh(chunk) && chunk.start == start
    {
      currentChunkIndex := currentChunkIndex + 1;
      if currentChunkIndex >= |chunks| {
        var added := new Chunk(start, chunkSize);
        chunks := chunks + [added];
      }
      chunk := chunks[currentChunkIndex];
      forall i: nat | i < |elements| ensures Placed(i) && places[i] != currentChunkIndex {
        assert old(Placed(i));
      }
    }

    /** The elements in the current chunk end here. */
    ghost predicate BelowOffset(offset: nat)
      reads this
    {
      |places| == |elements|
      && forall i: nat | i < |elements| && places[i] == currentChunkIndex ::
           elements[i].address + elements[i].layout.size <= offset
    }

    /** A range no element has: past everything used in its chunk. */
    ghost predicate IsFree(address: nat, layout: Layout, place: nat, before: nat)
      reads this, chunks
    {
      && place == currentChunkIndex < |chunks|
      && chunks[place].start <= before <= address && address + layout.size == chunks[place].offset <= chunks[place].end
      && layout.align > 0 && address % layout.align == 0
    }

    method Store(address: nat, layout: Layout, value: nat, ghost before: nat)
      requires ChunksValid() && RestEmpty() && ElementsValid() && FlagsValid() && DropsValid()
      requires IsFree(address, layout, currentChunkIndex, before)
      requires BelowOffset(before)
      modifies this`elements, this`places, this`stored
      ensures Valid()
      ensures elements == old(elements) + [Element(address, layout, value)] && stored == old(stored) + [value]
    {
      forall i: nat | i < |elements|
        ensures Apart(elements[i].address, elements[i].layout.size, address, layout.size)
      {
        assert Placed(i);
        var c, d := chunks[places[i]], chunks[currentChunkIndex];
        if places[i] < currentChunkIndex {
          assert Apart(c.start, chunkSize, d.start, chunkSize);
        }
      }
      elements, places := elements + [Element(address, layout, value)], places + [currentChunkIndex];
      stored := stored + [value];
      forall i: nat | i < |elements| ensures Placed(i) {
        if i < |elements| - 1 {
          assert old(Placed(i));
        }
      }
      assert Values(elements) == Values(old(elements)) + [value];
    }

    /** Where the chunk after the current one starts or, if there is none, would start. */
    ghost function NextStart(start: nat): nat
      requires ChunksValid()
      reads this, chunks
    {
      if currentChunkIndex + 1 < |chunks| then chunks[currentChunkIndex + 1].start else start
    }

    /** The address a value of this layout gets: in the current chunk, or else in the next, or nowhere. */
    ghost function AddressFor(layout: Layout, start: nat): Option<nat>
      requires ChunksValid() && layout.align > 0
      reads this, chunks
    {
      if chunks[currentChunkIndex].Fits(layout) then
        Some(AlignUp(chunks[currentChunkIndex].offset, layout.align))
      else if AlignUp(NextStart(start), layout.align) + layout.size <= NextStart(start) + chunkSize then
        Some(AlignUp(NextStart(start), layout.align))
      else None
    }

    lemma ElementsBelow()
      requires ChunksValid() && ElementsValid()
      ensures BelowOffset(chunks[currentChunkIndex].offset)
    {
      forall i: nat | i < |elements| && places[i] == currentChunkIndex
        ensures elements[i].address + elements[i].layout.size <= chunks[currentChunkIndex].offset
      {
        assert Placed(i);
      }
    }

    method AllocateIn(chunk: Chunk, layout: Layout) returns (ptr: Option<nat>)
      requires ChunksValid() && RestEmpty() && ElementsValid()
      requires chunk == chunks[currentChunkIndex] && layout.align > 0
      modifies chunk
      ensures ChunksValid() && RestEmpty() && ElementsValid()
      ensures ptr == if old(chunk.Fits(layout)) then Some(AlignUp(old(chunk.offset), layout.align)) else None
      ensures ptr.Some? ==> IsFree(ptr.value, layout, currentChunkIndex, old(chunk.offset))
      ensures ptr.None? ==> chunk.offset == old(chunk.offset)
      ensures BelowOffset(old(chunk.offset))
    {
      AlignUpIsFirst(chunk.offset, layout.align);
      ElementsBelow();
      ptr := chunk.Allocate(layout);
      forall i: nat | i < |elements| ensures Placed(i) {
        assert old(Placed(i));
      }
    }

    /** The room for a value; when it fits in neither chunk the current one has moved on all the same. */
    method Reserve(layout: Layout, start: nat) returns (ptr: Option<nat>, ghost before: nat)
      requires ChunksValid() && RestEmpty() && ElementsValid()
      requires layout.align > 0 && IsNewChunk(start)
      modifies this`chunks, this`currentChunkIndex, chunks
      ensures ChunksValid() && RestEmpty() && ElementsValid()
      ensures ptr == old(AddressFor(layout, start))
      ensures ptr.Some? ==> IsFree(ptr.value, layout, currentChunkIndex, before)
      ensures BelowOffset(before)
      ensures currentChunkIndex == old(currentChunkIndex) + if old(chunks[currentChunkIndex].Fits(layout)) then 0 else 1
      ensures old(chunks) <= chunks && |chunks| == if currentChunkIndex < |old(chunks)| then |old(chunks)|
                                                   else |old(chunks)| + 1
      ensures forall c <- chunks :: c in old(chunks) || fresh(c)
    {
      var chunk := chunks[currentChunkIndex];
      before := chunk.offset;
      ptr := AllocateIn(chunk, layout);
      if ptr.None? {
        chunk := NextChunk(start);
        before := chunk.offset;
        ptr := AllocateIn(chunk, layout);
      }
    }

    /** Allocates room and stores the value the callback makes, `value` if it returns and None if it panics. */
    method Alloc(layout: Layout, value: Option<nat>, start: nat) returns (box: Option<ArenaBox>)
      requires Valid() && layout.align > 0 && IsNewChunk(start)
      modifies this`chunks, this`currentChunkIndex, this`elements, this`places, this`stored, chunks
      ensures Valid() && forall c <- chunks :: c in old(chunks) || fresh(c)
      ensures box.Some? <==> old(AddressFor(layout, start)).Some? && value.Some?
      ensures box.Some? ==>
                && box.value.address == old(AddressFor(layout, start)).value
                && Holds(box.value, |flags| - 1)
                && elements == old(elements) + [Element(box.value.address, layout, value.value)]
                && stored == old(stored) + [value.value]
      ensures box.None? ==> elements == old(elements) && stored == old(stored)
      ensures old(chunks) <= chunks
      ensures |chunks| == if currentChunkIndex < |old(chunks)| then |old(chunks)| else |old(chunks)| + 1
      ensures currentChunkIndex == old(currentChunkIndex) + if old(chunks[currentChunkIndex].Fits(layout)) then 0 else 1
    {
      ghost var before;
      var ptr;
      ptr, before := Reserve(layout, start);
      if ptr.None? || value.None? {
        return None;
      }
      Store(ptr.value, layout, value.value, before);
      return Some(ArenaBox(ptr.value, valid));
    }
  }
}
