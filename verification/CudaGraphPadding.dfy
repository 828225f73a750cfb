/** The table that pads batch sizes up to sizes for which a CUDA graph has been captured. */
module CudaGraphPadding {
  import opened Wrappers

  /** Lookups with a size beyond the table raise IndexError. */
  datatype Lookup = Padded(size: nat) | IndexError

  ghost predicate Descending(s: seq<nat>) {
    forall j, k :: 0 <= j < k < |s| ==> s[j] >= s[k]
  }

  function InsertDesc(s: seq<nat>, x: nat): seq<nat> {
    if s == [] || s[0] <= x then [x] + s else [s[0]] + InsertDesc(s[1..], x)
  }

  function SortDesc(s: seq<nat>): seq<nat> {
    if s == [] then [] else InsertDesc(SortDesc(s[1..]), s[0])
  }

  lemma {:induction false} InsertDescPermutes(s: seq<nat>, x: nat)
    ensures multiset(InsertDesc(s, x)) == multiset(s) + multiset{x}
  {
    if s != [] {
      assert s == [s[0]] + s[1..];
      InsertDescPermutes(s[1..], x);
    }
  }

  lemma {:induction false} InsertDescIsSorted(s: seq<nat>, x: nat)
    requires Descending(s)
    ensures Descending(InsertDesc(s, x))
  {
    if s != [] && s[0] > x {
      InsertDescIsSorted(s[1..], x);
      var r := InsertDesc(s[1..], x);
      InsertDescPermutes(s[1..], x);
      forall k | 0 <= k < |r|
        ensures s[0] >= r[k]
      {
        assert r[k] in multiset(r);
      }
    }
  }

  /** Sorting gives a descending permutation. */
  lemma {:induction false} SortDescIsSorted(s: seq<nat>)
    ensures Descending(SortDesc(s)) && multiset(SortDesc(s)) == multiset(s)
  {
    if s != [] {
      SortDescIsSorted(s[1..]);
      InsertDescIsSorted(SortDesc(s[1..]), s[0]);
      InsertDescPermutes(SortDesc(s[1..]), s[0]);
      assert s == [s[0]] + s[1..];
    }
  }

  lemma SameElements(s: seq<nat>, x: nat)
    ensures x in SortDesc(s) <==> x in s
  {
    SortDescIsSorted(s);
    assert x in multiset(s) <==> x in s;
    assert x in multiset(SortDesc(s)) <==> x in SortDesc(s);
  }

  /** r is the least captured size that is at least bs. */
  ghost predicate IsLeast(sizes: seq<nat>, bs: nat, r: nat) {
    r in sizes && bs <= r && forall s :: s in sizes && bs <= s ==> r <= s
  }

  /** Between neighbours of a descending list, the larger one is the least size that fits. */
  lemma LeastBetween(s: seq<nat>, i: nat, bs: nat)
    requires Descending(s) && i < |s| && bs <= s[i] && (i + 1 < |s| ==> s[i + 1] < bs)
    ensures IsLeast(s, bs, s[i])
  {
    assert i + 1 < |s| ==> forall k :: i + 1 < k < |s| ==> s[i + 1] >= s[k];
  }

  /** Size below the i-th entry of a descending list: the next one, or zero. */
  function Below(s: seq<nat>, i: nat): nat {
    if i < |s| then s[i] else 0
  }

  /** The table is right for every positive batch size in lo .. hi, and holds zero for zero. */
  ghost predicate Right(s: seq<nat>, table: seq<nat>, lo: nat, hi: nat)
    requires hi <= |table|
  {
    forall bs :: lo <= bs < hi ==> if bs == 0 then table[bs] == 0 else IsLeast(s, bs, table[bs])
  }

  /** Fills the entries between two neighbouring capture sizes. */
  method FillStretch(s: seq<nat>, i: nat, table: array<nat>)
    requires Descending(s) && i < |s| && s[0] < table.Length && Right(s, table[..], s[i], s[0])
    modifies table
    ensures Right(s, table[..], Below(s, i + 1), s[0])
  {
    var end, start := s[i], Below(s, i + 1);
    for bs := start to end
      invariant Right(s, table[..], start, bs) && Right(s, table[..], end, s[0])
    {
      if bs == start {
        table[bs] := start;
        if bs > 0 { LeastIsSelf(s, i + 1); }
      } else {
        table[bs] := end;
        LeastBetween(s, i, bs);
      }
    }
  }

  lemma LeastIsSelf(s: seq<nat>, i: nat)
    requires i < |s|
    ensures IsLeast(s, s[i], s[i])
  {
  }

  /** The list without repetitions. */
  function Dedup(s: seq<nat>): seq<nat> {
    if s == [] then [] else if s[0] in s[1..] then Dedup(s[1..]) else [s[0]] + Dedup(s[1..])
  }

  lemma {:induction false} DedupElements(s: seq<nat>, x: nat)
    ensures x in Dedup(s) <==> x in s
  {
    if s != [] {
      assert s == [s[0]] + s[1..];
      DedupElements(s[1..], x);
    }
  }

  class CompilationConfig {
    var cudagraphCaptureSizes: Option<seq<nat>>
    var maxCaptureSize: nat
    var bsToPaddedGraphSize: array<nat>

    /** The table maps every batch size from one to the largest captured size to the least captured size that fits. */
    ghost predicate Ready()
      reads this, bsToPaddedGraphSize
    {
      && cudagraphCaptureSizes.Some? && bsToPaddedGraphSize.Length == maxCaptureSize + 1
      && (forall s :: s in cudagraphCaptureSizes.value ==> s <= maxCaptureSize)
      && (maxCaptureSize > 0 ==> maxCaptureSize in cudagraphCaptureSizes.value)
      && Right(cudagraphCaptureSizes.value, bsToPaddedGraphSize[..], 0, maxCaptureSize + 1)
    }

    constructor (userSizes: Option<seq<nat>>)
      ensures cudagraphCaptureSizes == userSizes
    {
      cudagraphCaptureSizes, maxCaptureSize, bsToPaddedGraphSize := userSizes, 0, new nat[0];
    }

    /** The size a batch is padded to. Negative indices count from the end of the table. */
    function PadForCudagraph(batchSize: int): Lookup
      reads this, bsToPaddedGraphSize
    {
      if 0 <= batchSize < bsToPaddedGraphSize.Length then Padded(bsToPaddedGraphSize[batchSize])
      else if -bsToPaddedGraphSize.Length <= batchSize < 0
             then Padded(bsToPaddedGraphSize[bsToPaddedGraphSize.Length + batchSize])
      else IndexError
    }

    /** Capture sizes given by the user take precedence over the computed ones. */
    method InitWithCudagraphSizes(sizes: seq<nat>)
      modifies this
      ensures Ready() && fresh(bsToPaddedGraphSize)
      ensures forall x :: x in cudagraphCaptureSizes.value <==>
                x in (if old(cudagraphCaptureSizes).Some? then old(cudagraphCaptureSizes).value else sizes)
      ensures Descending(cudagraphCaptureSizes.value)
    {
      hide SortDesc, Dedup, IsLeast;
      var chosen := match cudagraphCaptureSizes case None => sizes case Some(own) => Dedup(own);
      var s := SortDesc(chosen);
      ChosenElements(cudagraphCaptureSizes, sizes, chosen);
      var table := BuildTable(s);
      cudagraphCaptureSizes, maxCaptureSize, bsToPaddedGraphSize := Some(s), Below(s, 0), table;
    }
  }

  lemma ChosenElements(user: Option<seq<nat>>, sizes: seq<nat>, chosen: seq<nat>)
    requires chosen == match user case None => sizes case Some(own) => Dedup(own)
    ensures Descending(SortDesc(chosen))
    ensures forall x :: x in SortDesc(chosen) <==> x in (if user.Some? then user.value else sizes)
  {
    SortDescIsSorted(chosen);
    hide SortDesc, Dedup;
    forall x
      ensures x in SortDesc(chosen) <==> x in (if user.Some? then user.value else sizes)
    {
      SameElements(chosen, x);
      if user.Some? { DedupElements(user.value, x); }
    }
  }

  /** The whole table of a descending list of sizes. */
  method BuildTable(s: seq<nat>) returns (table: array<nat>)
    requires Descending(s)
    ensures fresh(table) && table.Length == Below(s, 0) + 1 && Right(s, table[..], 0, Below(s, 0) + 1)
  {
    hide IsLeast;
    var top := Below(s, 0);
    table := new nat[top + 1](_ => 0);
    for i := 0 to |s|
      invariant Right(s, table[..], Below(s, i), top)
    {
      FillStretch(s, i, table);
    }
    table[top] := top;
    if top > 0 { LeastIsSelf(s, 0); }
  }

  /** Lookup fails exactly beyond the table on either side; a negative batch size counts from its end. */
  lemma PaddingDomain(config: CompilationConfig, bs: int)
    requires config.Ready()
    ensures config.PadForCudagraph(bs) == IndexError <==>
            bs > config.maxCaptureSize || bs + config.maxCaptureSize + 1 < 0
    ensures bs < 0 <= bs + config.maxCaptureSize + 1 ==>
              config.PadForCudagraph(bs) == config.PadForCudagraph(bs + config.maxCaptureSize + 1)
  {
  }

  /** In a completed configuration, a batch fits the table exactly when some captured size is at least as large,
      and is then padded to the least such size; padding is monotone and idempotent. */
  lemma PaddingIsLeast(config: CompilationConfig, bs: nat, bs': nat)
    requires config.Ready() && 1 <= bs <= bs'
    ensures config.PadForCudagraph(bs).Padded? <==> exists s :: s in config.cudagraphCaptureSizes.value && bs <= s
    ensures config.PadForCudagraph(bs).Padded? ==>
            IsLeast(config.cudagraphCaptureSizes.value, bs, config.PadForCudagraph(bs).size)
    ensures config.PadForCudagraph(bs').Padded? ==>
              config.PadForCudagraph(bs).Padded? && config.PadForCudagraph(bs).size <= config.PadForCudagraph(bs').size
    ensures config.PadForCudagraph(bs).Padded? ==>
              config.PadForCudagraph(config.PadForCudagraph(bs).size) == config.PadForCudagraph(bs)
  {
    var sizes, table, top := config.cudagraphCaptureSizes.value, config.bsToPaddedGraphSize, config.maxCaptureSize;
    if bs <= top {
      assert IsLeast(sizes, bs, table[bs]) && table[bs] <= top;
      assert IsLeast(sizes, table[bs], table[table[bs]]);
      if bs' <= top {
        assert IsLeast(sizes, bs', table[bs']);
      }
    }
  }
}

/** Which sizes are captured, and what padding then amounts to. */
module CaptureSizes {
  import opened CudaGraphPadding
  import opened Arithmetic

  datatype Result = Ok(sizes: seq<nat>) | TypeError | ZeroDivisionError

  /** Engine settings that decide the capture sizes. */
  datatype Settings = Settings(enforceEager: bool, cudaGraphSizes: seq<nat>, denoiseBlockSize: int,
                               tensorParallelSize: nat, sequenceParallelism: bool, maxNumBatchedTokens: nat)

  /** d * 1, d * 2, ..., d * k. */
  function Multiples(d: nat, k: nat): seq<nat> {
    if k == 0 then [] else Multiples(d, k - 1) + [d * k]
  }

  function KeepMultiples(s: seq<nat>, tp: nat): seq<nat>
    requires tp > 0
  {
    if s == [] then [] else (if s[0] % tp == 0 then [s[0]] else []) + KeepMultiples(s[1..], tp)
  }

  function KeepUpTo(s: seq<nat>, limit: nat): seq<nat> {
    if s == [] then [] else (if s[0] <= limit then [s[0]] else []) + KeepUpTo(s[1..], limit)
  }

  function Reversed(s: seq<nat>): seq<nat> {
    if s == [] then [] else Reversed(s[1..]) + [s[0]]
  }

  /** Sizes before filtering. A negative block size gives an empty range. */
  function Candidates(st: Settings): Result {
    if |st.cudaGraphSizes| == 0 then TypeError
    else if |st.cudaGraphSizes| > 1 then Ok(Reversed(SortDesc(st.cudaGraphSizes)))
    else if st.denoiseBlockSize == 0 then ZeroDivisionError
    else if st.denoiseBlockSize < 0 then Ok([])
    else Ok(Multiples(st.denoiseBlockSize, st.cudaGraphSizes[0] / st.denoiseBlockSize))
  }

  function Captured(st: Settings): Result
    requires st.tensorParallelSize > 0
  {
    if st.enforceEager then Ok([]) else
    match Candidates(st)
    case Ok(s) =>
      var t := if st.tensorParallelSize > 1 && st.sequenceParallelism then KeepMultiples(s, st.tensorParallelSize)
                 else s;
      Ok(KeepUpTo(t, st.maxNumBatchedTokens))
    case error => error
  }

  lemma {:induction false} KeepMultiplesElements(s: seq<nat>, tp: nat, x: nat)
    requires tp > 0
    ensures x in KeepMultiples(s, tp) <==> x in s && x % tp == 0
  {
    if s != [] {
      assert s == [s[0]] + s[1..];
      KeepMultiplesElements(s[1..], tp, x);
    }
  }

  lemma {:induction false} KeepUpToElements(s: seq<nat>, limit: nat, x: nat)
    ensures x in KeepUpTo(s, limit) <==> x in s && x <= limit
  {
    if s != [] {
      assert s == [s[0]] + s[1..];
      KeepUpToElements(s[1..], limit, x);
    }
  }

  lemma {:induction false} MultiplesElements(d: nat, k: nat, x: nat)
    requires d > 0
    ensures x in Multiples(d, k) <==> 0 < x <= d * k && x % d == 0
  {
    if k == 0 {
    } else {
      MultiplesElements(d, k - 1, x);
      NextMultiple(d, k, x);
    }
  }

  /** Between two successive multiples there is no other. */
  lemma NextMultiple(d: nat, k: nat, x: nat)
    requires d > 0 && k > 0
    ensures d * k == d * (k - 1) + d && (d * k) % d == 0 && d * k > 0
    ensures d * (k - 1) < x <= d * k && x % d == 0 ==> x == d * k
  {
    QuotientUnique(d * k, d, k, 0);
    if d * (k - 1) < x <= d * k && x % d == 0 {
      var q := x / d;
      assert x == d * q;
      assert d * (k - q) == d * k - d * q;
      SmallMultiple(d, k - q);
    }
  }

  ghost predicate CommonMultiple(x: nat, a: nat, b: nat)
    requires a > 0 && b > 0
  {
    x % a == 0 && x % b == 0
  }

  /** The least positive common multiple, searched from m upwards. */
  ghost function LcmFrom(a: nat, b: nat, m: nat): (r: nat)
    requires a > 0 && b > 0 && 0 < m <= a * b
    ensures m <= r <= a * b && CommonMultiple(r, a, b)
    ensures forall x :: m <= x < r ==> !CommonMultiple(x, a, b)
    decreases a * b - m
  {
    QuotientUnique(a * b, a, b, 0);
    QuotientUnique(b * a, b, a, 0);
    assert b * a == a * b;
    if CommonMultiple(m, a, b) then m else LcmFrom(a, b, m + 1)
  }

  ghost function Lcm(a: nat, b: nat): (r: nat)
    requires a > 0 && b > 0
    ensures r > 0 && CommonMultiple(r, a, b) && forall x :: 0 < x < r ==> !CommonMultiple(x, a, b)
  {
    assert 1 <= a * b;
    LcmFrom(a, b, 1)
  }

  /** Taking away a multiple of a multiple of a keeps divisibility by a. */
  lemma RemainderOfMultiple(x: nat, l: nat, a: nat)
    requires a > 0 && l > 0 && x % a == 0 && l % a == 0
    ensures (x % l) % a == 0
  {
    var q := x / l;
    var i, j := x / a, l / a;
    assert x == a * i && l == a * j && x == l * q + x % l;
    assert l * q == a * (j * q);
    assert x % l == a * (i - j * q);
    QuotientUnique(a * (i - j * q), a, i - j * q, 0);
  }

  lemma MultipleOfMultiple(x: nat, l: nat, a: nat)
    requires a > 0 && l > 0 && x % l == 0 && l % a == 0
    ensures x % a == 0
  {
    var i, j := x / l, l / a;
    assert x == l * i && l == a * j;
    assert x == a * (j * i);
    QuotientUnique(a * (j * i), a, j * i, 0);
  }

  /** The common multiples are the multiples of the least one. */
  lemma LcmDivides(x: nat, a: nat, b: nat)
    requires a > 0 && b > 0
    ensures CommonMultiple(x, a, b) <==> x % Lcm(a, b) == 0
  {
    var l := Lcm(a, b);
    hide Lcm;
    if CommonMultiple(x, a, b) {
      RemainderOfMultiple(x, l, a);
      RemainderOfMultiple(x, l, b);
      assert CommonMultiple(x % l, a, b);
    }
    if x % l == 0 {
      MultipleOfMultiple(x, l, a);
      MultipleOfMultiple(x, l, b);
    }
  }

  /** The unit that batch sizes are padded to: the block size, or its least common multiple with the parallel size. */
  ghost function Unit(st: Settings): (u: nat)
    requires st.denoiseBlockSize > 0 && st.tensorParallelSize > 0
    ensures u > 0
  {
    if st.tensorParallelSize > 1 && st.sequenceParallelism then Lcm(st.denoiseBlockSize, st.tensorParallelSize)
    else st.denoiseBlockSize
  }

  ghost predicate OneSize(st: Settings) {
    !st.enforceEager && |st.cudaGraphSizes| == 1 && st.denoiseBlockSize > 0 && st.tensorParallelSize > 0
  }

  /** x is a positive multiple of the unit within the configured size and the token limit. */
  ghost predicate Fits(st: Settings, x: nat)
    requires OneSize(st)
  {
    0 < x <= st.cudaGraphSizes[0] && x <= st.maxNumBatchedTokens && x % Unit(st) == 0
  }

  /** With one configured size, exactly the positive multiples of the unit within both limits are captured. */
  lemma CapturedAre(st: Settings, x: nat)
    requires OneSize(st)
    ensures Captured(st).Ok?
    ensures x in Captured(st).sizes <==> Fits(st, x)
  {
    hide Multiples, KeepMultiples, KeepUpTo, Lcm;
    var d, c, tp := st.denoiseBlockSize, st.cudaGraphSizes[0], st.tensorParallelSize;
    var all := Multiples(d, c / d);
    MultiplesElements(d, c / d, x);
    WithinLimit(d, c, x);
    KeepMultiplesElements(all, tp, x);
    LcmDivides(x, d, tp);
    var kept := if tp > 1 && st.sequenceParallelism then KeepMultiples(all, tp) else all;
    KeepUpToElements(kept, st.maxNumBatchedTokens, x);
  }

  lemma WithinLimit(d: nat, c: nat, x: nat)
    requires d > 0
    ensures x % d == 0 ==> (x <= d * (c / d) <==> x <= c)
  {
    var q := c / d;
    assert c == d * q + c % d;
    if x % d == 0 && d * q < x <= c {
      assert d * (x / d - q) == x - d * q;
      SmallMultiple(d, x / d - q);
    }
  }

  lemma {:induction false} ReversedElements(s: seq<nat>, x: nat)
    ensures x in Reversed(s) <==> x in s
  {
    if s != [] {
      assert s == [s[0]] + s[1..];
      ReversedElements(s[1..], x);
    }
  }

  ghost predicate SeveralSizes(st: Settings) {
    !st.enforceEager && |st.cudaGraphSizes| > 1 && st.tensorParallelSize > 0
  }

  /** x is a configured size within the token limit that the parallel workers can share. */
  ghost predicate Shared(st: Settings, x: nat)
    requires st.tensorParallelSize > 0
  {
    && x in st.cudaGraphSizes && x <= st.maxNumBatchedTokens
    && (st.tensorParallelSize > 1 && st.sequenceParallelism ==> x % st.tensorParallelSize == 0)
  }

  /** With several configured sizes, exactly those that pass the filters are captured. */
  lemma SeveralCaptured(st: Settings, x: nat)
    requires SeveralSizes(st)
    ensures Captured(st).Ok?
    ensures x in Captured(st).sizes <==> Shared(st, x)
  {
    hide SortDesc, Reversed, KeepMultiples, KeepUpTo;
    var tp, all := st.tensorParallelSize, Reversed(SortDesc(st.cudaGraphSizes));
    SameElements(st.cudaGraphSizes, x);
    ReversedElements(SortDesc(st.cudaGraphSizes), x);
    KeepMultiplesElements(all, tp, x);
    var kept := if tp > 1 && st.sequenceParallelism then KeepMultiples(all, tp) else all;
    KeepUpToElements(kept, st.maxNumBatchedTokens, x);
  }

  /** When sizes are captured at all: never in eager mode or for a negative block size, and without a configured size,
      or with one and blocks of no tokens, the configuration is refused. */
  lemma CaptureOutcome(st: Settings)
    requires st.tensorParallelSize > 0
    ensures Captured(st) == TypeError <==> !st.enforceEager && st.cudaGraphSizes == []
    ensures Captured(st) == ZeroDivisionError <==>
            !st.enforceEager && |st.cudaGraphSizes| == 1 && st.denoiseBlockSize == 0
    ensures Captured(st).Ok? && Captured(st).sizes != [] ==> OneSize(st) || SeveralSizes(st)
  {
    hide SortDesc, Reversed, Multiples;
  }

  /** r is the least multiple of u that is at least bs. */
  ghost predicate IsRoundedUp(bs: nat, u: nat, r: nat)
    requires u > 0
  {
    r % u == 0 && bs <= r && forall m: nat :: m % u == 0 && bs <= m ==> r <= m
  }

  /** Closed form: with one configured size, every batch that fits is padded to the least multiple of the unit. */
  lemma PaddingRoundsUp(st: Settings, config: CompilationConfig, bs: nat)
    requires OneSize(st) && Captured(st).Ok? && config.Ready() && bs >= 1
    requires forall x :: x in config.cudagraphCaptureSizes.value <==> x in Captured(st).sizes
    ensures config.PadForCudagraph(bs).Padded? ==> IsRoundedUp(bs, Unit(st), config.PadForCudagraph(bs).size)
    ensures config.PadForCudagraph(bs).Padded? <==> exists x :: Fits(st, x) && bs <= x
  {
    hide Captured, Unit, Fits, CompilationConfig.Ready;
    PaddingIsLeast(config, bs, bs);
    forall x: nat
      ensures x in Captured(st).sizes <==> Fits(st, x)
    {
      CapturedAre(st, x);
    }
    if config.PadForCudagraph(bs).Padded? {
      LeastIsRoundedUp(st, Captured(st).sizes, bs, config.PadForCudagraph(bs).size);
    }
  }

  lemma LeastIsRoundedUp(st: Settings, sizes: seq<nat>, bs: nat, r: nat)
    requires OneSize(st) && bs >= 1 && IsLeast(sizes, bs, r) && forall x :: x in sizes <==> Fits(st, x)
    ensures IsRoundedUp(bs, Unit(st), r)
  {
    hide Unit;
    assert Fits(st, r);
    forall m: nat | m % Unit(st) == 0 && bs <= m
      ensures r <= m
    {
      assert m < r ==> Fits(st, m);
    }
  }

  /** Completes a configuration. Without sizes of the user's own and with one configured size, every batch size from one
      to the largest captured size is rounded up to the unit; with several, exactly the shared ones are captured. */
  method SetCudagraphSizes(st: Settings, config: CompilationConfig) returns (outcome: Result)
    requires st.tensorParallelSize > 0
    modifies config
    ensures outcome == Captured(st)
    ensures outcome.Ok? ==> config.Ready()
    ensures outcome.Ok? && OneSize(st) && old(config.cudagraphCaptureSizes).None? ==>
              forall bs: nat :: 1 <= bs <= config.maxCaptureSize ==>
                config.PadForCudagraph(bs).Padded? && IsRoundedUp(bs, Unit(st), config.PadForCudagraph(bs).size)
    ensures outcome.Ok? && SeveralSizes(st) && old(config.cudagraphCaptureSizes).None? ==>
              forall x: nat :: x in config.cudagraphCaptureSizes.value <==> Shared(st, x)
  {
    hide Captured, Unit, IsRoundedUp, Shared;
    outcome := Captured(st);
    if outcome.Ok? {
      config.InitWithCudagraphSizes(outcome.sizes);
      if OneSize(st) && old(config.cudagraphCaptureSizes).None? {
        forall bs: nat | 1 <= bs <= config.maxCaptureSize
          ensures config.PadForCudagraph(bs).Padded? && IsRoundedUp(bs, Unit(st), config.PadForCudagraph(bs).size)
        {
          PaddingRoundsUp(st, config, bs);
        }
      }
      if SeveralSizes(st) {
        forall x: nat
          ensures x in outcome.sizes <==> Shared(st, x)
        {
          SeveralCaptured(st, x);
        }
      }
    }
  }
}
