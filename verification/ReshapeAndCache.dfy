/** Scattering the keys and values of new tokens into the blocked caches. */
module ReshapeAndCache {
  import opened Radix
  import opened BlockCache

  /** New tokens: one key and one value row per token, and the cache slot each goes to (negative: padding). */
  datatype Tokens<T> = Tokens(key: seq<T>, value: seq<T>, slots: seq<int>, keyStride: nat, valueStride: nat) {
    predicate RowOk(g: Layout, t: nat, h: nat) {
      && t * keyStride + h * g.headSize + g.headSize <= |key|
      && t * valueStride + h * g.headSize + g.headSize <= |value|
    }

    /** Rows lie inside the tensors, slots inside the cache, and no slot is written by two tokens. */
    ghost predicate Valid(g: Layout, numBlocks: nat) {
      && g.Valid()
      && (forall t, h :: 0 <= t < |slots| && 0 <= h < g.numHeads ==> RowOk(g, t, h))
      && (forall t :: 0 <= t < |slots| && 0 <= slots[t] ==> slots[t] / g.blockSize < numBlocks)
      && (forall t, t' :: 0 <= t < t' < |slots| && 0 <= slots[t] ==> slots[t] != slots[t'])
    }

    function KeyRow(g: Layout, t: nat, h: nat): (r: seq<T>)
      requires RowOk(g, t, h)
      ensures |r| == g.headSize
    {
      key[t * keyStride + h * g.headSize..][..g.headSize]
    }

    function ValueRow(g: Layout, t: nat, h: nat): (r: seq<T>)
      requires RowOk(g, t, h)
      ensures |r| == g.headSize
    {
      value[t * valueStride + h * g.headSize..][..g.headSize]
    }
  }

  /** The first n dimensions of the given row are stored as the key of (slot, h). */
  ghost predicate KeyStored<T>(g: Layout, cache: seq<T>, slot: nat, h: nat, row: seq<T>, n: nat)
    requires g.Valid() && n <= |row|
  {
    forall d :: 0 <= d < n ==> g.KeyAddr(slot, h, d) < |cache| && cache[g.KeyAddr(slot, h, d)] == row[d]
  }

  ghost predicate ValueStored<T>(g: Layout, cache: seq<T>, slot: nat, h: nat, row: seq<T>, n: nat)
    requires g.Valid() && n <= |row|
  {
    forall d :: 0 <= d < n ==> g.ValueAddr(slot, h, d) < |cache| && cache[g.ValueAddr(slot, h, d)] == row[d]
  }

  /** Only elements of head h of the given slot may differ. */
  ghost predicate OnlyKey<T>(g: Layout, before: seq<T>, after: seq<T>, slot: nat, h: nat)
    requires g.Valid()
  {
    && |before| == |after|
    && forall a :: 0 <= a < |after| && (g.KeyAt(a).0 != slot || g.KeyAt(a).1 != h) ==> after[a] == before[a]
  }

  ghost predicate OnlyValue<T>(g: Layout, before: seq<T>, after: seq<T>, slot: nat, h: nat)
    requires g.Valid()
  {
    && |before| == |after|
    && forall a :: 0 <= a < |after| && (g.ValueAt(a).0 != slot || g.ValueAt(a).1 != h) ==> after[a] == before[a]
  }

  /** Storing dimension d of a key leaves the dimensions below d in place. */
  lemma KeyStep<T>(g: Layout, start: seq<T>, before: seq<T>, slot: nat, h: nat, row: seq<T>, d: nat)
    requires g.Valid() && h < g.numHeads && d < |row| == g.headSize && g.KeyAddr(slot, h, d) < |before|
    requires KeyStored(g, before, slot, h, row, d) && OnlyKey(g, start, before, slot, h)
    ensures KeyStored(g, before[g.KeyAddr(slot, h, d) := row[d]], slot, h, row, d + 1)
    ensures OnlyKey(g, start, before[g.KeyAddr(slot, h, d) := row[d]], slot, h)
  {
    hide Layout.KeyAddr, Layout.KeyAt;
    g.KeyRoundTrip(slot, h, d);
    forall e | 0 <= e < d
      ensures g.KeyAddr(slot, h, e) != g.KeyAddr(slot, h, d)
    {
      g.KeyRoundTrip(slot, h, e);
    }
  }

  lemma ValueStep<T>(g: Layout, start: seq<T>, before: seq<T>, slot: nat, h: nat, row: seq<T>, d: nat)
    requires g.Valid() && h < g.numHeads && d < |row| == g.headSize && g.ValueAddr(slot, h, d) < |before|
    requires ValueStored(g, before, slot, h, row, d) && OnlyValue(g, start, before, slot, h)
    ensures ValueStored(g, before[g.ValueAddr(slot, h, d) := row[d]], slot, h, row, d + 1)
    ensures OnlyValue(g, start, before[g.ValueAddr(slot, h, d) := row[d]], slot, h)
  {
    hide Layout.ValueAddr, Layout.ValueAt;
    g.ValueRoundTrip(slot, h, d);
    forall e | 0 <= e < d
      ensures g.ValueAddr(slot, h, e) != g.ValueAddr(slot, h, d)
    {
      g.ValueRoundTrip(slot, h, e);
    }
  }

  /** Copies one key row, cell by cell, into its interleaved place. */
  method WriteKey<T>(g: Layout, cache: array<T>, slot: nat, h: nat, row: seq<T>, numBlocks: nat)
    requires g.Valid() && h < g.numHeads && |row| == g.headSize && slot / g.blockSize < numBlocks
    requires numBlocks * g.numHeads * g.HeadElems() <= cache.Length
    modifies cache
    ensures KeyStored(g, cache[..], slot, h, row, g.headSize)
    ensures OnlyKey(g, old(cache[..]), cache[..], slot, h)
  {
    hide Layout.KeyAddr, Layout.KeyAt, Layout.HeadBase, Quo, Rem;
    var base := g.HeadBase(slot, h);
    var c := 0;
    while c < g.headSize
      invariant c <= g.headSize && c % g.x == 0
      invariant KeyStored(g, cache[..], slot, h, row, c) && OnlyKey(g, old(cache[..]), cache[..], slot, h)
    {
      hide *;
      var target := c * g.blockSize + Rem(slot, g.blockSize) * g.x;
      g.CellFits(c);
      for i := 0 to g.x
        invariant KeyStored(g, cache[..], slot, h, row, c + i) && OnlyKey(g, old(cache[..]), cache[..], slot, h)
      {
        g.KeySource(slot, h, c, i);
        g.AddrInBounds(slot, h, c + i, numBlocks);
        KeyStep(g, old(cache[..]), cache[..], slot, h, row, c + i);
        ghost var before := cache[..];
        cache[base + target + i] := row[c + i];
        assert cache[..] == before[g.KeyAddr(slot, h, c + i) := row[c + i]];
      }
      c := c + g.x;
    }
  }

  /** Copies one value row into its strided place. */
  method WriteValue<T>(g: Layout, cache: array<T>, slot: nat, h: nat, row: seq<T>, numBlocks: nat)
    requires g.Valid() && h < g.numHeads && |row| == g.headSize && slot / g.blockSize < numBlocks
    requires numBlocks * g.numHeads * g.HeadElems() <= cache.Length
    modifies cache
    ensures ValueStored(g, cache[..], slot, h, row, g.headSize)
    ensures OnlyValue(g, old(cache[..]), cache[..], slot, h)
  {
    hide Layout.ValueAddr, Layout.ValueAt, Layout.HeadBase, Quo, Rem;
    var base := g.HeadBase(slot, h);
    for d := 0 to g.headSize
      invariant ValueStored(g, cache[..], slot, h, row, d) && OnlyValue(g, old(cache[..]), cache[..], slot, h)
    {
      hide *;
      var target := d * g.blockSize + Rem(slot, g.blockSize);
      g.ValueSource(slot, h, d);
      g.AddrInBounds(slot, h, d, numBlocks);
      ValueStep(g, old(cache[..]), cache[..], slot, h, row, d);
      ghost var before := cache[..];
      cache[base + target] := row[d];
      assert cache[..] == before[g.ValueAddr(slot, h, d) := row[d]];
    }
  }

  /** A row survives writes to any other head or slot. */
  lemma KeyKept<T>(g: Layout, before: seq<T>, after: seq<T>, slot: nat, h: nat, slot': nat, h': nat, row: seq<T>)
    requires g.Valid() && h' < g.numHeads && |row| == g.headSize && (slot, h) != (slot', h')
    requires OnlyKey(g, before, after, slot, h) && KeyStored(g, before, slot', h', row, g.headSize)
    ensures KeyStored(g, after, slot', h', row, g.headSize)
  {
    hide Layout.KeyAddr, Layout.KeyAt;
    forall d | 0 <= d < g.headSize
      ensures after[g.KeyAddr(slot', h', d)] == row[d]
    {
      g.KeyRoundTrip(slot', h', d);
    }
  }

  lemma ValueKept<T>(g: Layout, before: seq<T>, after: seq<T>, slot: nat, h: nat, slot': nat, h': nat, row: seq<T>)
    requires g.Valid() && h' < g.numHeads && |row| == g.headSize && (slot, h) != (slot', h')
    requires OnlyValue(g, before, after, slot, h) && ValueStored(g, before, slot', h', row, g.headSize)
    ensures ValueStored(g, after, slot', h', row, g.headSize)
  {
    hide Layout.ValueAddr, Layout.ValueAt;
    forall d | 0 <= d < g.headSize
      ensures after[g.ValueAddr(slot', h', d)] == row[d]
    {
      g.ValueRoundTrip(slot', h', d);
    }
  }

  /** Work item (t, h): both rows of head h of token t are stored, unless the token is padding. */
  ghost predicate Stored<T>(g: Layout, tk: Tokens<T>, keys: seq<T>, values: seq<T>, t: nat, h: nat)
    requires g.Valid() && t < |tk.slots| && tk.RowOk(g, t, h)
  {
    0 <= tk.slots[t] ==>
      && KeyStored(g, keys, tk.slots[t], h, tk.KeyRow(g, t, h), g.headSize)
      && ValueStored(g, values, tk.slots[t], h, tk.ValueRow(g, t, h), g.headSize)
  }

  /** Elements of slots that no token maps to are unchanged. */
  ghost predicate OthersKept<T>(g: Layout, slots: seq<int>, keys: seq<T>, keys': seq<T>, values: seq<T>,
                                values': seq<T>)
    requires g.Valid()
  {
    && |keys| == |keys'| && |values| == |values'|
    && (forall a :: 0 <= a < |keys'| && g.KeyAt(a).0 !in slots ==> keys'[a] == keys[a])
    && (forall a :: 0 <= a < |values'| && g.ValueAt(a).0 !in slots ==> values'[a] == values[a])
  }

  /** Body of the parallel loop. */
  method WriteToken<T>(g: Layout, tk: Tokens<T>, keyCache: array<T>, valueCache: array<T>, t: nat, h: nat,
                       numBlocks: nat)
    requires tk.Valid(g, numBlocks) && t < |tk.slots| && h < g.numHeads && tk.RowOk(g, t, h) && keyCache != valueCache
    requires numBlocks * g.numHeads * g.HeadElems() <= keyCache.Length
             && numBlocks * g.numHeads * g.HeadElems() <= valueCache.Length
    modifies keyCache, valueCache
    ensures Stored(g, tk, keyCache[..], valueCache[..], t, h)
    ensures 0 <= tk.slots[t] ==>
              OnlyKey(g, old(keyCache[..]), keyCache[..], tk.slots[t], h)
                && OnlyValue(g, old(valueCache[..]), valueCache[..], tk.slots[t], h)
    ensures tk.slots[t] < 0 ==> keyCache[..] == old(keyCache[..]) && valueCache[..] == old(valueCache[..])
  {
    hide KeyStored, ValueStored, OnlyKey, OnlyValue, Layout.HeadElems;
    var slot := tk.slots[t];
    if slot >= 0 {
      WriteKey(g, keyCache, slot, h, tk.KeyRow(g, t, h), numBlocks);
      ghost var keys := keyCache[..];
      WriteValue(g, valueCache, slot, h, tk.ValueRow(g, t, h), numBlocks);
      assert keyCache[..] == keys;
    }
  }

  /** A work item leaves the rows of other work items in place. */
  lemma StoredKept<T>(g: Layout, tk: Tokens<T>, numBlocks: nat, keys: seq<T>, keys': seq<T>, values: seq<T>,
                      values': seq<T>,
                      t: nat, h: nat, t': nat, h': nat)
    requires tk.Valid(g, numBlocks) && t < |tk.slots| && h < g.numHeads && t' < |tk.slots| && h' < g.numHeads
             && (t, h) != (t', h')
    requires 0 <= tk.slots[t] && OnlyKey(g, keys, keys', tk.slots[t], h)
             && OnlyValue(g, values, values', tk.slots[t], h)
    requires tk.RowOk(g, t', h') && Stored(g, tk, keys, values, t', h')
    ensures Stored(g, tk, keys', values', t', h')
  {
    hide KeyStored, ValueStored, OnlyKey, OnlyValue;
    if 0 <= tk.slots[t'] {
      assert (tk.slots[t], h) != (tk.slots[t'], h');
      KeyKept(g, keys, keys', tk.slots[t], h, tk.slots[t'], h', tk.KeyRow(g, t', h'));
      ValueKept(g, values, values', tk.slots[t], h, tk.slots[t'], h', tk.ValueRow(g, t', h'));
    }
  }

  lemma OthersStep<T>(g: Layout, slots: seq<int>, k0: seq<T>, k1: seq<T>, k2: seq<T>, v0: seq<T>, v1: seq<T>,
                      v2: seq<T>, slot: nat, h: nat)
    requires g.Valid() && slot in slots && OthersKept(g, slots, k0, k1, v0, v1)
    requires OnlyKey(g, k1, k2, slot, h) && OnlyValue(g, v1, v2, slot, h)
    ensures OthersKept(g, slots, k0, k2, v0, v2)
  {
    hide Layout.KeyAt, Layout.ValueAt;
  }

  /** Scatters all tokens, in any order: every row reads back, and untouched slots keep their contents. */
  method ReshapeAndCache<T>(g: Layout, tk: Tokens<T>, keyCache: array<T>, valueCache: array<T>, numBlocks: nat,
                            schedule: seq<(nat, nat)>)
    requires tk.Valid(g, numBlocks) && IsSchedule(schedule, |tk.slots|, g.numHeads) && keyCache != valueCache
    requires numBlocks * g.numHeads * g.HeadElems() <= keyCache.Length
             && numBlocks * g.numHeads * g.HeadElems() <= valueCache.Length
    modifies keyCache, valueCache
    ensures forall t: nat, h: nat :: t < |tk.slots| && h < g.numHeads ==>
              tk.RowOk(g, t, h) && Stored(g, tk, keyCache[..], valueCache[..], t, h)
    ensures OthersKept(g, tk.slots, old(keyCache[..]), keyCache[..], old(valueCache[..]), valueCache[..])
  {
    hide Stored, OthersKept, OnlyKey, OnlyValue, Layout.HeadElems;
    ghost var k0, v0 := keyCache[..], valueCache[..];
    assert OthersKept(g, tk.slots, k0, k0, v0, v0) by { OthersStart(g, tk.slots, k0, v0); }
    for k := 0 to |schedule|
      invariant OthersKept(g, tk.slots, k0, keyCache[..], v0, valueCache[..])
      invariant forall j :: 0 <= j < k ==>
                  var (t, h) := schedule[j]; tk.RowOk(g, t, h) && Stored(g, tk, keyCache[..], valueCache[..], t, h)
    {
      var (t, h) := schedule[k];
      assert tk.RowOk(g, t, h);
      ghost var keys, values := keyCache[..], valueCache[..];
      WriteToken(g, tk, keyCache, valueCache, t, h, numBlocks);
      if 0 <= tk.slots[t] {
        OthersStep(g, tk.slots, k0, keys, keyCache[..], v0, values, valueCache[..], tk.slots[t], h);
        forall j | 0 <= j < k
          ensures var (t', h') := schedule[j]; Stored(g, tk, keyCache[..], valueCache[..], t', h')
        {
          var (t', h') := schedule[j];
          StoredKept(g, tk, numBlocks, keys, keyCache[..], values, valueCache[..], t, h, t', h');
        }
      }
    }
    forall t: nat, h: nat | t < |tk.slots| && h < g.numHeads
      ensures tk.RowOk(g, t, h) && Stored(g, tk, keyCache[..], valueCache[..], t, h)
    {
      var j :| 0 <= j < |schedule| && schedule[j] == (t, h);
    }
  }

  lemma OthersStart<T>(g: Layout, slots: seq<int>, keys: seq<T>, values: seq<T>)
    requires g.Valid()
    ensures OthersKept(g, slots, keys, keys, values, values)
  {
  }

  /** The scatter contract pins the caches down completely, so every schedule ends in the same state. */
  lemma ScheduleIndependent<T>(g: Layout, tk: Tokens<T>, numBlocks: nat, k0: seq<T>, v0: seq<T>, k1: seq<T>, v1: seq<T>,
                               k2: seq<T>, v2: seq<T>)
    requires tk.Valid(g, numBlocks)
    requires OthersKept(g, tk.slots, k0, k1, v0, v1) && OthersKept(g, tk.slots, k0, k2, v0, v2)
    requires forall t: nat, h: nat :: t < |tk.slots| && h < g.numHeads ==>
               tk.RowOk(g, t, h) && Stored(g, tk, k1, v1, t, h) && Stored(g, tk, k2, v2, t, h)
    ensures k1 == k2 && v1 == v2
  {
    hide Layout.KeyAt, Layout.ValueAt, Layout.KeyAddr, Layout.ValueAddr;
    forall a | 0 <= a < |k0| && g.KeyAt(a).0 in tk.slots
      ensures k1[a] == k2[a]
    {
      g.KeyCovers(a);
      var t :| 0 <= t < |tk.slots| && tk.slots[t] == g.KeyAt(a).0;
      assert Stored(g, tk, k1, v1, t, g.KeyAt(a).1);
    }
    forall a | 0 <= a < |v0| && g.ValueAt(a).0 in tk.slots
      ensures v1[a] == v2[a]
    {
      g.ValueCovers(a);
      var t :| 0 <= t < |tk.slots| && tk.slots[t] == g.ValueAt(a).0;
      assert Stored(g, tk, k1, v1, t, g.ValueAt(a).1);
    }
  }

  /** A row in a slot that no token of a later call maps to stays where it is. */
  lemma StoredElsewhere<T>(g: Layout, slots: seq<int>, keys: seq<T>, keys': seq<T>, values: seq<T>, values': seq<T>,
                           tk: Tokens<T>, t: nat, h: nat)
    requires g.Valid() && t < |tk.slots| && h < g.numHeads && tk.RowOk(g, t, h) && Stored(g, tk, keys, values, t, h)
    requires OthersKept(g, slots, keys, keys', values, values') && tk.slots[t] !in slots
    ensures Stored(g, tk, keys', values', t, h)
  {
    hide Layout.KeyAddr, Layout.KeyAt, Layout.ValueAddr, Layout.ValueAt;
    if 0 <= tk.slots[t] {
      forall d | 0 <= d < g.headSize
        ensures keys'[g.KeyAddr(tk.slots[t], h, d)] == keys[g.KeyAddr(tk.slots[t], h, d)]
        ensures values'[g.ValueAddr(tk.slots[t], h, d)] == values[g.ValueAddr(tk.slots[t], h, d)]
      {
        g.KeyRoundTrip(tk.slots[t], h, d);
        g.ValueRoundTrip(tk.slots[t], h, d);
      }
    }
  }

  /** Token t of call c has not been overwritten by the calls before call n. */
  ghost predicate Live<T>(calls: seq<Tokens<T>>, c: nat, t: nat, n: nat)
    requires n <= |calls| && c < n && t < |calls[c].slots|
  {
    forall e :: c < e < n ==> calls[c].slots[t] !in calls[e].slots
  }

  /** Every live token of the first n calls can be read back. */
  ghost predicate AllStored<T>(g: Layout, calls: seq<Tokens<T>>, keys: seq<T>, values: seq<T>, n: nat)
    requires g.Valid() && n <= |calls|
  {
    forall c: nat, t: nat, h: nat :: c < n && t < |calls[c].slots| && h < g.numHeads && Live(calls, c, t, n) ==>
      calls[c].RowOk(g, t, h) && Stored(g, calls[c], keys, values, t, h)
  }

  /** One more call keeps every live token and adds its own. */
  lemma NextCall<T>(g: Layout, calls: seq<Tokens<T>>, k0: seq<T>, k1: seq<T>, v0: seq<T>, v1: seq<T>, n: nat)
    requires g.Valid() && n < |calls| && AllStored(g, calls, k0, v0, n) && OthersKept(g, calls[n].slots, k0, k1, v0, v1)
    requires forall t: nat, h: nat :: t < |calls[n].slots| && h < g.numHeads ==>
               calls[n].RowOk(g, t, h) && Stored(g, calls[n], k1, v1, t, h)
    ensures AllStored(g, calls, k1, v1, n + 1)
  {
    hide Stored, OthersKept;
    forall c: nat, t: nat, h: nat | c < n + 1 && t < |calls[c].slots| && h < g.numHeads && Live(calls, c, t, n + 1)
      ensures calls[c].RowOk(g, t, h) && Stored(g, calls[c], k1, v1, t, h)
    {
      if c < n {
        assert Live(calls, c, t, n);
        StoredElsewhere(g, calls[n].slots, k0, k1, v0, v1, calls[c], t, h);
      }
    }
  }

  /** A sequence of calls, each in any order: every token that no later call overwrites can be read back. */
  method CacheInCalls<T>(g: Layout, calls: seq<Tokens<T>>, keyCache: array<T>, valueCache: array<T>, numBlocks: nat,
                         schedules: seq<seq<(nat, nat)>>)
    requires g.Valid() && |schedules| == |calls| && keyCache != valueCache
    requires forall c :: 0 <= c < |calls| ==>
               calls[c].Valid(g, numBlocks) && IsSchedule(schedules[c], |calls[c].slots|, g.numHeads)
    requires numBlocks * g.numHeads * g.HeadElems() <= keyCache.Length
             && numBlocks * g.numHeads * g.HeadElems() <= valueCache.Length
    modifies keyCache, valueCache
    ensures AllStored(g, calls, keyCache[..], valueCache[..], |calls|)
  {
    hide Stored, OthersKept, IsSchedule, Tokens.Valid, Layout.HeadElems;
    for c := 0 to |calls|
      invariant AllStored(g, calls, keyCache[..], valueCache[..], c)
    {
      ghost var k0, v0 := keyCache[..], valueCache[..];
      ReshapeAndCache(g, calls[c], keyCache, valueCache, numBlocks, schedules[c]);
      NextCall(g, calls, k0, keyCache[..], v0, valueCache[..], c);
    }
  }
}
