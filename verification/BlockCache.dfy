/** The layout of the blocked key/value cache: addresses of slots, heads and dimensions, and their inverses. */
module BlockCache {
  import opened Radix

  /** Shape of the caches: [num_blocks, num_heads, head_size / x, block_size, x] for keys,
      [num_blocks, num_heads, head_size, block_size] for values. */
  datatype Layout = Layout(numHeads: nat, headSize: nat, blockSize: nat, x: nat) {
    predicate Valid() {
      0 < numHeads && 0 < headSize && 0 < blockSize && 0 < x && headSize % x == 0
    }

    /** Elements of one head of one block. */
    function HeadElems(): (n: nat)
      requires Valid()
      ensures 0 < n
    {
      headSize * blockSize
    }

    /** Address of offset `off` in head h of the block of the given slot. */
    function InHead(slot: nat, h: nat, off: nat): nat
      requires Valid()
    {
      Flat(Flat(Quo(slot, blockSize), h, numHeads), off, HeadElems())
    }

    /** Address of dimension d of head h of the key in a slot. */
    function KeyAddr(slot: nat, h: nat, d: nat): nat
      requires Valid()
    {
      InHead(slot, h, Flat(Flat(Quo(d, x), Rem(slot, blockSize), blockSize), Rem(d, x), x))
    }

    /** Address of dimension d of head h of the value in a slot. */
    function ValueAddr(slot: nat, h: nat, d: nat): nat
      requires Valid()
    {
      InHead(slot, h, Flat(d, Rem(slot, blockSize), blockSize))
    }

    /** Slot, head and dimension of the key element stored at address a. */
    function KeyAt(a: nat): (nat, nat, nat)
      requires Valid()
    {
      var (row, off) := (Quo(a, HeadElems()), Rem(a, HeadElems()));
      var cell := Quo(off, x);
      (Flat(Quo(row, numHeads), Rem(cell, blockSize), blockSize), Rem(row, numHeads),
        Flat(Quo(cell, blockSize), Rem(off, x), x))
    }

    /** Slot, head and dimension of the value element stored at address a. */
    function ValueAt(a: nat): (nat, nat, nat)
      requires Valid()
    {
      var (row, off) := (Quo(a, HeadElems()), Rem(a, HeadElems()));
      (Flat(Quo(row, numHeads), Rem(off, blockSize), blockSize), Rem(row, numHeads), Quo(off, blockSize))
    }

    lemma KeyOffsetBound(d: nat, b: nat)
      requires Valid() && d < headSize && b < blockSize
      ensures Flat(Flat(Quo(d, x), b, blockSize), Rem(d, x), x) < HeadElems()
    {
      QuoBelow(d, headSize, x);
      var n := Quo(headSize, x);
      hide Flat, Quo, Rem;
      FlatBelow(Quo(d, x), n, b, blockSize);
      FlatBelow(Flat(Quo(d, x), b, blockSize), n * blockSize, Rem(d, x), x);
      assert n * blockSize * x == n * x * blockSize;
    }

    /** Every key element can be recovered from its address, so the key layout is injective. */
    lemma KeyRoundTrip(slot: nat, h: nat, d: nat)
      requires Valid() && h < numHeads && d < headSize
      ensures KeyAt(KeyAddr(slot, h, d)) == (slot, h, d)
    {
      hide Flat, Quo, Rem, HeadElems;
      var b := Rem(slot, blockSize);
      var cell := Flat(Quo(d, x), b, blockSize);
      KeyOffsetBound(d, b);
      Coordinates(Flat(Quo(slot, blockSize), h, numHeads), Flat(cell, Rem(d, x), x), HeadElems());
      Coordinates(Quo(slot, blockSize), h, numHeads);
      Coordinates(cell, Rem(d, x), x);
      Coordinates(Quo(d, x), b, blockSize);
      Rebuild(slot, blockSize);
      Rebuild(d, x);
    }

    /** Every value element can be recovered from its address, so the value layout is injective. */
    lemma ValueRoundTrip(slot: nat, h: nat, d: nat)
      requires Valid() && h < numHeads && d < headSize
      ensures ValueAt(ValueAddr(slot, h, d)) == (slot, h, d)
    {
      hide Flat, Quo, Rem;
      var b := Rem(slot, blockSize);
      FlatBelow(d, headSize, b, blockSize);
      Coordinates(Flat(Quo(slot, blockSize), h, numHeads), Flat(d, b, blockSize), HeadElems());
      Coordinates(Quo(slot, blockSize), h, numHeads);
      Coordinates(d, b, blockSize);
      Rebuild(slot, blockSize);
    }

    /** Addresses of slots in the first numBlocks blocks lie inside caches of numBlocks blocks. */
    lemma AddrInBounds(slot: nat, h: nat, d: nat, numBlocks: nat)
      requires Valid() && h < numHeads && d < headSize && slot / blockSize < numBlocks
      ensures KeyAddr(slot, h, d) < numBlocks * numHeads * HeadElems()
      ensures ValueAddr(slot, h, d) < numBlocks * numHeads * HeadElems()
    {
      var b, blk := Rem(slot, blockSize), Quo(slot, blockSize);
      assert blk < numBlocks;
      hide Flat, Quo, Rem;
      KeyOffsetBound(d, b);
      FlatBelow(d, headSize, b, blockSize);
      FlatBelow(blk, numBlocks, h, numHeads);
      FlatBelow(Flat(blk, h, numHeads), numBlocks * numHeads, Flat(Flat(Quo(d, x), b, blockSize), Rem(d, x), x),
        HeadElems());
      FlatBelow(Flat(blk, h, numHeads), numBlocks * numHeads, Flat(d, b, blockSize), HeadElems());
    }

    /** Every address is the address of exactly the key element that KeyAt names. */
    lemma KeyCovers(a: nat)
      requires Valid()
      ensures var (slot, h, d) := KeyAt(a); h < numHeads && d < headSize && KeyAddr(slot, h, d) == a
    {
      var (slot, h, d) := KeyAt(a);
      var row, off := Quo(a, HeadElems()), Rem(a, HeadElems());
      var cell := Quo(off, x);
      var n := Quo(headSize, x);
      CellBound(off);
      hide Flat, Quo, Rem, HeadElems;
      Rebuild(a, HeadElems());
      Rebuild(row, numHeads);
      Rebuild(off, x);
      Rebuild(cell, blockSize);
      Coordinates(Quo(row, numHeads), Rem(cell, blockSize), blockSize);
      Coordinates(Quo(cell, blockSize), Rem(off, x), x);
    }

    lemma CellBound(off: nat)
      requires Valid() && off < HeadElems()
      ensures Flat(Quo(Quo(off, x), blockSize), Rem(off, x), x) < headSize
    {
      QuoBelow(0, headSize, x);
      var n := Quo(headSize, x);
      hide Flat, Quo, Rem;
      assert n * blockSize * x == n * x * blockSize;
      QuoInTable(off, n * blockSize, x);
      QuoInTable(Quo(off, x), n, blockSize);
      FlatBelow(Quo(Quo(off, x), blockSize), n, Rem(off, x), x);
    }

    /** Every address is the address of exactly the value element that ValueAt names. */
    lemma ValueCovers(a: nat)
      requires Valid()
      ensures var (slot, h, d) := ValueAt(a); h < numHeads && d < headSize && ValueAddr(slot, h, d) == a
    {
      var row, off := Quo(a, HeadElems()), Rem(a, HeadElems());
      QuoInTable(off, headSize, blockSize);
      hide Flat, Quo, Rem, HeadElems;
      Rebuild(a, HeadElems());
      Rebuild(row, numHeads);
      Rebuild(off, blockSize);
      Coordinates(Quo(row, numHeads), Rem(off, blockSize), blockSize);
    }

    /** First element of head h in the block of a slot, as the kernel computes it. */
    function HeadBase(slot: nat, h: nat): int
      requires Valid()
    {
      numHeads * headSize * blockSize * Quo(slot, blockSize) + h * blockSize * headSize
    }

    lemma InHeadIsBase(slot: nat, h: nat, off: nat)
      requires Valid()
      ensures InHead(slot, h, off) == HeadBase(slot, h) + off
    {
      var b := Quo(slot, blockSize);
      hide Quo;
      assert b * numHeads * (headSize * blockSize) == numHeads * headSize * blockSize * b;
      assert h * (headSize * blockSize) == h * blockSize * headSize;
    }

    /** The kernel's address arithmetic for element i of cell row c. */
    lemma KeySource(slot: nat, h: nat, c: nat, i: nat)
      requires Valid() && c % x == 0 && i < x
      ensures KeyAddr(slot, h, c + i) == HeadBase(slot, h) + (c * blockSize + Rem(slot, blockSize) * x) + i
    {
      var b, q := Rem(slot, blockSize), Quo(c, x);
      CellRow(c, i, x);
      CellOffset(q, b, i, blockSize, x, c);
      hide Flat, Quo, Rem, HeadBase, InHead;
      InHeadIsBase(slot, h, Flat(Flat(q, b, blockSize), i, x));
    }

    /** Cell rows tile the head. */
    lemma CellFits(c: nat)
      requires Valid() && c < headSize && c % x == 0
      ensures c + x <= headSize && (c + x) % x == 0
    {
      QuoBelow(c, headSize, x);
      CellRow(c, 0, x);
      RowBound(Quo(c, x), Quo(headSize, x), x);
      Coordinates(Quo(c, x) + 1, 0, x);
    }

    lemma ValueSource(slot: nat, h: nat, d: nat)
      requires Valid()
      ensures ValueAddr(slot, h, d) == HeadBase(slot, h) + (d * blockSize + Rem(slot, blockSize))
    {
      InHeadIsBase(slot, h, Flat(d, Rem(slot, blockSize), blockSize));
    }
  }

  /** Element i of cell row c lies in cell c / x. */
  lemma CellRow(c: nat, i: nat, x: nat)
    requires 0 < x && c % x == 0 && i < x
    ensures Quo(c + i, x) == Quo(c, x) && Rem(c + i, x) == i && Quo(c, x) * x == c
  {
    Coordinates(c / x, i, x);
    assert c / x * x == c;
  }

  lemma CellOffset(q: nat, b: nat, i: nat, blockSize: nat, x: nat, c: nat)
    requires q * x == c
    ensures Flat(Flat(q, b, blockSize), i, x) == c * blockSize + b * x + i
  {
    assert (q * blockSize + b) * x == q * x * blockSize + b * x;
  }
}
