/** Finite sums, dot products and maxima over index ranges of real sequences. */
module Reals {

  /** A total function on the reals, held as a map so that no heap is involved in applying it. */
  type RealFn = f: imap<real, real> | forall x :: x in f
    ghost witness imap x: real :: 0.0

  /** Product and quotient as named functions, so that proofs can treat them as opaque symbols. */
  function Times(a: real, b: real): real {
    a * b
  }

  function Over(a: real, b: real): real
    requires b != 0.0
  {
    a / b
  }

  function SumR(s: seq<real>, lo: nat, hi: nat): real
    requires lo <= hi <= |s|
    decreases hi
  {
    if lo == hi then 0.0 else SumR(s, lo, hi - 1) + s[hi - 1]
  }

  function DotR(a: seq<real>, b: seq<real>, lo: nat, hi: nat): real
    requires lo <= hi <= |a| && hi <= |b|
    decreases hi
  {
    if lo == hi then 0.0 else DotR(a, b, lo, hi - 1) + Times(a[hi - 1], b[hi - 1])
  }

  function Dot(a: seq<real>, b: seq<real>): real
    requires |a| == |b|
  {
    DotR(a, b, 0, |a|)
  }

  function Max(a: real, b: real): real {
    if a >= b then a else b
  }

  /** The largest of s[lo..hi]. */
  function MaxR(s: seq<real>, lo: nat, hi: nat): real
    requires lo < hi <= |s|
    decreases hi
  {
    if lo == hi - 1 then s[lo] else Max(MaxR(s, lo, hi - 1), s[hi - 1])
  }

  /** The maximum is attained, and it bounds every element. */
  lemma {:induction false} MaxRIsMax(s: seq<real>, lo: nat, hi: nat) returns (i: nat)
    requires lo < hi <= |s|
    ensures lo <= i < hi && s[i] == MaxR(s, lo, hi)
    ensures forall k :: lo <= k < hi ==> s[k] <= MaxR(s, lo, hi)
    decreases hi
  {
    if lo == hi - 1 {
      i := lo;
    } else {
      i := MaxRIsMax(s, lo, hi - 1);
      i := if s[i] >= s[hi - 1] then i else hi - 1;
    }
  }

  lemma {:induction false} MaxRSplit(s: seq<real>, lo: nat, mid: nat, hi: nat)
    requires lo < mid < hi <= |s|
    ensures MaxR(s, lo, hi) == Max(MaxR(s, lo, mid), MaxR(s, mid, hi))
    decreases hi
  {
    if mid < hi - 1 {
      MaxRSplit(s, lo, mid, hi - 1);
    }
  }

  lemma {:induction false} DotRSplit(a: seq<real>, b: seq<real>, lo: nat, mid: nat, hi: nat)
    requires lo <= mid <= hi <= |a| && hi <= |b|
    ensures DotR(a, b, lo, hi) == DotR(a, b, lo, mid) + DotR(a, b, mid, hi)
    decreases hi
  {
    if mid < hi {
      DotRSplit(a, b, lo, mid, hi - 1);
    }
  }

  /** Two ranges whose products agree term by term have the same dot product. */
  lemma {:induction false} DotRShift(a: seq<real>, b: seq<real>, lo: nat, c: seq<real>, d: seq<real>, lo': nat, n: nat)
    requires lo + n <= |a| && lo + n <= |b| && lo' + n <= |c| && lo' + n <= |d|
    requires forall j :: lo <= j < lo + n ==> Times(a[j], b[j]) == Times(c[j - lo + lo'], d[j - lo + lo'])
    ensures DotR(a, b, lo, lo + n) == DotR(c, d, lo', lo' + n)
  {
    if n > 0 {
      DotRShift(a, b, lo, c, d, lo', n - 1);
    }
  }
}
