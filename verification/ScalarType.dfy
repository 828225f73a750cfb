/** Bitwise operations on integers, and the packing of fields into one number. */
module Bits {
  import opened Arithmetic

  function Pow2(k: nat): (p: nat)
    ensures p > 0
  {
    if k == 0 then 1 else 2 * Pow2(k - 1)
  }

  /** Bitwise and of an integer, in two's complement, with a non-negative mask. */
  function And(a: int, mask: nat): nat
    decreases mask
  {
    if mask == 0 then 0 else (if a % 2 == 1 && mask % 2 == 1 then 1 else 0) + 2 * And(a / 2, mask / 2)
  }

  /** Bitwise or of non-negative integers. */
  function Or(a: nat, b: nat): nat {
    if a == 0 && b == 0 then 0 else (if a % 2 == 1 || b % 2 == 1 then 1 else 0) + 2 * Or(a / 2, b / 2)
  }

  function Shl(a: nat, k: nat): nat {
    a * Pow2(k)
  }

  /** Arithmetic shift to the right. */
  function Shr(a: int, k: nat): int {
    a / Pow2(k)
  }

  lemma HalfMod(a: int, m: nat)
    requires m > 0
    ensures a % (2 * m) == a % 2 + 2 * ((a / 2) % m)
  {
    var h, q := a / 2, (a / 2) / m;
    assert h == m * q + h % m;
    assert a == 2 * h + a % 2;
    assert a == (2 * m) * q + (a % 2 + 2 * (h % m)) by {
      assert 2 * (m * q) == (2 * m) * q;
    }
    QuotientUnique(a, 2 * m, q, a % 2 + 2 * (h % m));
  }

  /** Masking with w ones is reduction modulo 2^w, for negative numbers too. */
  lemma {:induction false} AndMask(a: int, w: nat)
    ensures And(a, Pow2(w) - 1) == a % Pow2(w)
    decreases w
  {
    if w > 0 {
      AndMask(a / 2, w - 1);
      HalfMod(a, Pow2(w - 1));
      assert (Pow2(w) - 1) % 2 == 1 && (Pow2(w) - 1) / 2 == Pow2(w - 1) - 1;
    }
  }

  lemma {:induction false} OrZero(b: nat)
    ensures Or(0, b) == b
  {
    if b > 0 {
      OrZero(b / 2);
    }
  }

  /** Or-ing above the highest bit of a number adds. */
  lemma {:induction false} OrDisjoint(a: nat, b: nat, k: nat)
    requires a < Pow2(k)
    ensures Or(a, Shl(b, k)) == a + Shl(b, k)
  {
    if k == 0 {
      OrZero(b);
    } else {
      var c := b * Pow2(k - 1);
      assert Shl(b, k) == 2 * c;
      OrDisjoint(a / 2, b, k - 1);
    }
  }

  lemma {:induction false} Pow2Add(j: nat, k: nat)
    ensures Pow2(j + k) == Pow2(j) * Pow2(k)
  {
    if j > 0 {
      Pow2Add(j - 1, k);
    }
  }

  /** A value and the number of low bits that hold it. */
  datatype Field = Field(value: int, width: nat)

  function Width(fs: seq<Field>): nat {
    if fs == [] then 0 else Width(fs[..|fs| - 1]) + fs[|fs| - 1].width
  }

  /** The packed fields, first field lowest. */
  function Pack(fs: seq<Field>): nat {
    if fs == [] then 0 else
    var f := fs[|fs| - 1];
    Or(Pack(fs[..|fs| - 1]), Shl(And(f.value, Pow2(f.width) - 1), Width(fs[..|fs| - 1])))
  }

  /** Field i of a packed number. */
  function Extract(fs: seq<Field>, i: nat, packed: nat): nat
    requires i < |fs|
  {
    And(Shr(packed, Width(fs[..i])), Pow2(fs[i].width) - 1)
  }

  /** Packing is positional notation: the fields, reduced to their widths, side by side. */
  lemma {:induction false} PackIsSum(fs: seq<Field>)
    ensures Pack(fs) < Pow2(Width(fs))
    ensures fs != [] ==> var n := |fs| - 1;
              Pack(fs) == Pack(fs[..n]) + (fs[n].value % Pow2(fs[n].width)) * Pow2(Width(fs[..n]))
  {
    if fs != [] {
      var n := |fs| - 1;
      var f, low, w := fs[n], Pack(fs[..n]), Width(fs[..n]);
      PackIsSum(fs[..n]);
      AndMask(f.value, f.width);
      var r := f.value % Pow2(f.width);
      OrDisjoint(low, r, w);
      Pow2Add(f.width, w);
      BelowProduct(r, Pow2(f.width), low, Pow2(w));
    }
  }

  lemma BelowProduct(r: nat, m: nat, low: nat, p: nat)
    requires r < m && low < p
    ensures low + r * p < m * p
  {
    assert (r + 1) * p <= m * p;
  }

  lemma {:induction false} WidthSplit(fs: seq<Field>, i: nat)
    requires i < |fs|
    ensures Width(fs) >= Width(fs[..i]) + fs[i].width
    decreases |fs|
  {
    var n := |fs| - 1;
    if i < n {
      WidthSplit(fs[..n], i);
      assert fs[..n][..i] == fs[..i];
    }
  }

  /** Bits above a field do not disturb it. */
  lemma HighBitsDropped(low: nat, r: nat, a: nat, b: nat, c: nat)
    requires a > 0 && b > 0
    ensures ((low + r * (a * (b * c))) / a) % b == (low / a) % b
  {
    var q := low / a;
    var x := low + r * (a * (b * c));
    assert r * (a * (b * c)) == a * (b * (r * c));
    assert x == a * (q + b * (r * c)) + low % a by {
      assert low == a * q + low % a;
      assert a * (q + b * (r * c)) == a * q + a * (b * (r * c));
    }
    QuotientUnique(x, a, q + b * (r * c), low % a);
    assert q + b * (r * c) == b * (q / b + r * c) + q % b by {
      assert b * (q / b + r * c) == b * (q / b) + b * (r * c);
    }
    QuotientUnique(q + b * (r * c), b, q / b + r * c, q % b);
  }

  /** Every field reads back, reduced to its width. */
  lemma {:induction false} ExtractPack(fs: seq<Field>, i: nat)
    requires i < |fs|
    ensures Extract(fs, i, Pack(fs)) == fs[i].value % Pow2(fs[i].width)
    decreases |fs|
  {
    hide Pack, And, Width, Pow2;
    var n := |fs| - 1;
    var low, w, r := Pack(fs[..n]), Width(fs[..n]), fs[n].value % Pow2(fs[n].width);
    PackIsSum(fs);
    PackIsSum(fs[..n]);
    AndMask(Shr(Pack(fs), Width(fs[..i])), fs[i].width);
    if i == n {
      assert low + r * Pow2(w) == Pow2(w) * r + low;
      QuotientUnique(Pack(fs), Pow2(w), r, low);
      QuotientUnique(r, Pow2(fs[n].width), 0, r);
    } else {
      ExtractPack(fs[..n], i);
      assert fs[..n][..i] == fs[..i];
      AndMask(Shr(low, Width(fs[..i])), fs[i].width);
      WidthSplit(fs[..n], i);
      var a, b := Width(fs[..i]), fs[i].width;
      Pow2Add(a, w - a);
      Pow2Add(b, w - a - b);
      HighBitsDropped(low, r, Pow2(a), Pow2(b), Pow2(w - a - b));
    }
  }

  ghost predicate SameWidths(fs: seq<Field>, gs: seq<Field>) {
    |fs| == |gs| && forall i :: 0 <= i < |fs| ==> fs[i].width == gs[i].width
  }

  ghost predicate Congruent(fs: seq<Field>, gs: seq<Field>)
    requires SameWidths(fs, gs)
  {
    forall i :: 0 <= i < |fs| ==> fs[i].value % Pow2(fs[i].width) == gs[i].value % Pow2(gs[i].width)
  }

  lemma {:induction false} SameWidth(fs: seq<Field>, gs: seq<Field>)
    requires SameWidths(fs, gs)
    ensures Width(fs) == Width(gs)
  {
    if fs != [] {
      SameWidth(fs[..|fs| - 1], gs[..|fs| - 1]);
    }
  }

  /** Two packed numbers are equal exactly when all fields agree modulo their widths. */
  lemma {:induction false} PackInjective(fs: seq<Field>, gs: seq<Field>)
    requires SameWidths(fs, gs)
    ensures Pack(fs) == Pack(gs) <==> Congruent(fs, gs)
  {
    hide Pack, And, Pow2, Extract;
    if Pack(fs) == Pack(gs) {
      forall i | 0 <= i < |fs|
        ensures fs[i].value % Pow2(fs[i].width) == gs[i].value % Pow2(gs[i].width)
      {
        ExtractPack(fs, i);
        ExtractPack(gs, i);
        SameExtract(fs, gs, i, Pack(fs));
      }
    }
    if Congruent(fs, gs) {
      CongruentPack(fs, gs);
    }
  }

  lemma SameExtract(fs: seq<Field>, gs: seq<Field>, i: nat, packed: nat)
    requires SameWidths(fs, gs) && i < |fs|
    ensures Extract(fs, i, packed) == Extract(gs, i, packed)
  {
    hide And, Pow2, Width, Shr;
    SameWidth(fs[..i], gs[..i]);
  }

  lemma {:induction false} CongruentPack(fs: seq<Field>, gs: seq<Field>)
    requires SameWidths(fs, gs) && Congruent(fs, gs)
    ensures Pack(fs) == Pack(gs)
  {
    hide And, Pow2;
    if fs == [] {
      assert gs == [];
    } else {
      var n := |fs| - 1;
      CongruentPack(fs[..n], gs[..n]);
      SameWidth(fs[..n], gs[..n]);
      PackIsSum(fs);
      PackIsSum(gs);
    }
  }

  /** Conversion to an unsigned word, and its reading as a signed one. */
  function Unsigned(x: int, word: nat): nat {
    x % Pow2(word)
  }

  function Signed(x: nat, word: nat): int {
    if 2 * x < Pow2(word) then x else x - Pow2(word)
  }

  /** Packing in machine words: every step wraps around. */
  function PackWord(fs: seq<Field>, word: nat): int {
    if fs == [] then 0 else
    var f := fs[|fs| - 1];
    Signed(Or(Unsigned(PackWord(fs[..|fs| - 1], word), word),
              Unsigned(Shl(And(Unsigned(f.value, word), Pow2(f.width) - 1), Width(fs[..|fs| - 1])), word)), word)
  }

  lemma SmallMod(x: nat, d: nat)
    requires x < d
    ensures x % d == x
  {
  }

  lemma {:induction false} Pow2Monotone(j: nat, k: nat)
    requires j <= k
    ensures Pow2(j) <= Pow2(k)
  {
    if j < k {
      Pow2Monotone(j, k - 1);
    }
  }

  /** Reducing to a word first does not change a narrower field. */
  lemma ModOfMod(x: int, a: nat, b: nat)
    requires a > 0 && b > 0
    ensures (x % (a * b)) % a == x % a
  {
    var q, r := x / (a * b), x % (a * b);
    assert x == (a * b) * q + r;
    assert (a * b) * q == a * (b * q);
    assert r == a * (r / a) + r % a;
    assert x == a * (b * q + r / a) + r % a by {
      assert a * (b * q + r / a) == a * (b * q) + a * (r / a);
    }
    QuotientUnique(x, a, b * q + r / a, r % a);
  }

  /** As long as the fields fit below the sign bit, nothing wraps: machine packing is packing. */
  lemma {:induction false} PackWordIsPack(fs: seq<Field>, word: nat)
    requires Width(fs) < word
    ensures PackWord(fs, word) == Pack(fs)
    decreases |fs|
  {
    if fs != [] {
      var n := |fs| - 1;
      var f, low, w := fs[n], Pack(fs[..n]), Width(fs[..n]);
      PackWordIsPack(fs[..n], word);
      PackIsSum(fs);
      PackIsSum(fs[..n]);
      hide Pack, And, Or, Pow2, Width;
      Pow2Monotone(Width(fs), word - 1);
      Pow2Monotone(w, word);
      HalfPow2(word);
      FieldInWord(f, word);
      SmallMod(low, Pow2(word));
      AndMask(f.value, f.width);
      SmallMod(Shl(f.value % Pow2(f.width), w), Pow2(word));
    }
  }

  lemma HalfPow2(word: nat)
    requires word > 0
    ensures Pow2(word) == 2 * Pow2(word - 1)
  {
  }

  lemma FieldInWord(f: Field, word: nat)
    requires f.width <= word
    ensures And(Unsigned(f.value, word), Pow2(f.width) - 1) == And(f.value, Pow2(f.width) - 1)
  {
    hide And, Pow2;
    AndMask(f.value, f.width);
    AndMask(Unsigned(f.value, word), f.width);
    Pow2Add(f.width, word - f.width);
    ModOfMod(f.value, Pow2(f.width), Pow2(word - f.width));
  }
}

/** Numeric types described by their fields, and the number that identifies them in Python and C++. */
module ScalarTypes {
  import opened Bits

  /** Codes for how a floating-point type represents NaN. */
  const NAN_NONE: nat := 0
  const NAN_IEEE_754: nat := 1
  const NAN_EXTD_RANGE_MAX_MIN: nat := 2

  datatype ScalarType = ScalarType(exponent: int, mantissa: int, signed: bool, bias: int,
                                   finiteValuesOnly: bool, nanRepr: int)

  /** The fields fit the C++ members: two bytes, a 32-bit bias and a byte-sized enumeration. */
  predicate InRange(t: ScalarType) {
    0 <= t.exponent < 256 && 0 <= t.mantissa < 256 && -0x8000_0000 <= t.bias < 0x8000_0000 && 0 <= t.nanRepr < 256
  }

  function Bit(b: bool): nat {
    if b then 1 else 0
  }

  /** Members and their widths in the id, lowest first. */
  function Fields(t: ScalarType): seq<Field> {
    [Field(t.exponent, 8), Field(t.mantissa, 8), Field(Bit(t.signed), 1), Field(t.bias, 32),
     Field(Bit(t.finiteValuesOnly), 1), Field(t.nanRepr, 8)]
  }

  lemma FieldsWidth(t: ScalarType)
    ensures Width(Fields(t)) == 58
    ensures Width(Fields(t)[..0]) == 0 && Width(Fields(t)[..1]) == 8 && Width(Fields(t)[..2]) == 16
    ensures Width(Fields(t)[..3]) == 17 && Width(Fields(t)[..4]) == 49 && Width(Fields(t)[..5]) == 50
  {
    var fs := Fields(t);
    hide Width;
    NextWidth(fs, 0);
    NextWidth(fs, 1);
    NextWidth(fs, 2);
    NextWidth(fs, 3);
    NextWidth(fs, 4);
    NextWidth(fs, 5);
    assert fs[..6] == fs;
  }

  lemma NextWidth(fs: seq<Field>, i: nat)
    requires i < |fs|
    ensures Width(fs[..i + 1]) == Width(fs[..i]) + fs[i].width && Width(fs[..0]) == 0
  {
    assert fs[..i + 1][..i] == fs[..i];
  }

  /** The id as C++ computes it, in 64-bit words. */
  function Id(t: ScalarType): int {
    PackWord(Fields(t), 64)
  }

  /** The type read back from an id, member by member. */
  function FromId(id: int): ScalarType {
    ScalarType(And(Shr(id, 0), 0xFF), And(Shr(id, 8), 0xFF), And(Shr(id, 16), 1) != 0,
               Signed(And(Shr(id, 17), 0xFFFF_FFFF), 32), And(Shr(id, 49), 1) != 0, And(Shr(id, 50), 0xFF))
  }

  lemma Powers()
    ensures Pow2(1) == 2 && Pow2(8) == 256 && Pow2(32) == 0x1_0000_0000
  {
    Pow2Add(8, 8);
    Pow2Add(16, 16);
  }

  /** The machine id never wraps: it is the packed number of its fields. */
  lemma IdIsPacked(t: ScalarType)
    ensures Id(t) == Pack(Fields(t)) && 0 <= Id(t) < Pow2(58)
  {
    hide Pack, PackWord, Pow2;
    FieldsWidth(t);
    PackWordIsPack(Fields(t), 64);
    PackIsSum(Fields(t));
  }

  lemma NextPack(fs: seq<Field>, i: nat)
    requires i < |fs|
    ensures Pack(fs[..i + 1]) == Pack(fs[..i]) + (fs[i].value % Pow2(fs[i].width)) * Pow2(Width(fs[..i]))
    ensures Pack(fs[..0]) == 0
  {
    PackIsSum(fs[..i + 1]);
    assert fs[..i + 1][..i] == fs[..i];
  }

  /** The places of the members in the id: exponent, mantissa, sign, bias, finiteness and NaN style, from the lowest
      bit, each reduced to its width. */
  lemma IdIs(t: ScalarType)
    ensures Id(t) == t.exponent % 256 + (t.mantissa % 256) * Pow2(8) + Bit(t.signed) * Pow2(16)
              + (t.bias % 0x1_0000_0000) * Pow2(17) + Bit(t.finiteValuesOnly) * Pow2(49)
              + (t.nanRepr % 256) * Pow2(50)
  {
    Powers();
    ZeroPower();
    hide Pack, PackWord, Pow2, Width, Id;
    var fs := Fields(t);
    IdIsPacked(t);
    FieldsWidth(t);
    NextPack(fs, 0);
    NextPack(fs, 1);
    NextPack(fs, 2);
    NextPack(fs, 3);
    NextPack(fs, 4);
    NextPack(fs, 5);
    assert fs[..6] == fs;
  }

  lemma ZeroPower()
    ensures Pow2(0) == 1
  {
  }

  /** Reading an id back gives every member, reduced to its width. */
  lemma FromIdOfId(t: ScalarType)
    ensures FromId(Id(t)) == ScalarType(t.exponent % 256, t.mantissa % 256, t.signed,
                                        Signed(t.bias % 0x1_0000_0000, 32), t.finiteValuesOnly, t.nanRepr % 256)
  {
    hide Pack, PackWord, Pow2, And, Shr, Width, Signed;
    IdIsPacked(t);
    FieldsWidth(t);
    Powers();
    var fs := Fields(t);
    ExtractPack(fs, 0);
    ExtractPack(fs, 1);
    ExtractPack(fs, 2);
    ExtractPack(fs, 3);
    ExtractPack(fs, 4);
    ExtractPack(fs, 5);
  }

  /** A type survives the trip through its id exactly when its members are in range, negative biases included. */
  lemma RoundTrip(t: ScalarType)
    ensures FromId(Id(t)) == t <==> InRange(t)
  {
    hide Id, FromId, Pow2;
    Powers();
    FromIdOfId(t);
  }

  /** Members agree modulo the widths they have in the id. */
  predicate SameMembers(s: ScalarType, t: ScalarType) {
    && s.exponent % 256 == t.exponent % 256 && s.mantissa % 256 == t.mantissa % 256 && s.signed == t.signed
    && s.bias % 0x1_0000_0000 == t.bias % 0x1_0000_0000 && s.finiteValuesOnly == t.finiteValuesOnly
    && s.nanRepr % 256 == t.nanRepr % 256
  }

  /** Two types have the same id exactly when their members agree modulo the widths; in range, when they are equal. */
  lemma IdsInjective(s: ScalarType, t: ScalarType)
    ensures Id(s) == Id(t) <==> SameMembers(s, t)
    ensures InRange(s) && InRange(t) ==> (SameMembers(s, t) <==> s == t)
  {
    hide Pack, PackWord, Pow2, Id;
    IdIsPacked(s);
    IdIsPacked(t);
    Powers();
    PackInjective(Fields(s), Fields(t));
    var fs, gs := Fields(s), Fields(t);
    assert Congruent(fs, gs) <==>
      && fs[0].value % 256 == gs[0].value % 256 && fs[1].value % 256 == gs[1].value % 256
      && fs[2].value % 2 == gs[2].value % 2 && fs[3].value % 0x1_0000_0000 == gs[3].value % 0x1_0000_0000
      && fs[4].value % 2 == gs[4].value % 2 && fs[5].value % 256 == gs[5].value % 256;
  }

  /** Out of range, distinct types can collide. */
  lemma OutOfRangeCollides()
    ensures var s, t := ScalarType(0, 4, false, 0, false, 1), ScalarType(256, 4, false, 0, false, 1);
            s != t && Id(s) == Id(t)
  {
    IdsInjective(ScalarType(0, 4, false, 0, false, 1), ScalarType(256, 4, false, 0, false, 1));
  }

  datatype Found = Type(t: ScalarType) | ValueError

  /** The Python side: computing an id records the type, and ids are looked up in the record. */
  class IdMap {
    var types: map<int, ScalarType>

    constructor ()
      ensures types == map[]
    {
      types := map[];
    }

    method ComputeId(t: ScalarType) returns (val: nat)
      modifies this
      ensures val == Id(t) && types == old(types)[val := t]
    {
      var members := Fields(t);
      var offset := 0;
      val := 0;
      for i := 0 to |members|
        invariant val == Pack(members[..i]) && offset == Width(members[..i])
      {
        assert members[..i + 1][..i] == members[..i];
        var bitMask := Pow2(members[i].width) - 1;
        val := Or(val, Shl(And(members[i].value, bitMask), offset));
        offset := offset + members[i].width;
      }
      assert members[..|members|] == members;
      assert offset <= 64 by { FieldsWidth(t); }
      IdIsPacked(t);
      types := types[val := t];
    }

    function Lookup(id: int): Found
      reads this
    {
      if id in types then Type(types[id]) else ValueError
    }
  }

  /** The record after the ids of the given types have been computed in order. */
  function MapAfter(ts: seq<ScalarType>): map<int, ScalarType> {
    if ts == [] then map[] else MapAfter(ts[..|ts| - 1])[Id(ts[|ts| - 1]) := ts[|ts| - 1]]
  }

  ghost predicate Distinguishable(ts: seq<ScalarType>) {
    forall i, j :: 0 <= i < j < |ts| && SameMembers(ts[i], ts[j]) ==> ts[i] == ts[j]
  }

  /** Every recorded type sits under its own id, and every id has been computed for some type of the run. */
  lemma {:induction false} MapIsSound(ts: seq<ScalarType>, id: int)
    ensures id in MapAfter(ts) ==> MapAfter(ts)[id] in ts && Id(MapAfter(ts)[id]) == id
    ensures id in MapAfter(ts) <==> exists i :: 0 <= i < |ts| && Id(ts[i]) == id
  {
    if ts != [] {
      hide Id;
      var n := |ts| - 1;
      MapIsSound(ts[..n], id);
      assert forall i :: 0 <= i < n ==> ts[..n][i] == ts[i];
    }
  }

  /** In any run, looking up the id of each type gives that type back exactly when
      no two different types of the run agree modulo the widths of the id. */
  lemma LookupsAreExact(ts: seq<ScalarType>)
    ensures (forall i :: 0 <= i < |ts| ==> Id(ts[i]) in MapAfter(ts) && MapAfter(ts)[Id(ts[i])] == ts[i]) <==>
            Distinguishable(ts)
  {
    hide Id, SameMembers, MapAfter;
    forall i | 0 <= i < |ts|
      ensures Id(ts[i]) in MapAfter(ts) && MapAfter(ts)[Id(ts[i])] in ts && Id(MapAfter(ts)[Id(ts[i])]) == Id(ts[i])
    {
      MapIsSound(ts, Id(ts[i]));
    }
    forall i, j | 0 <= i < |ts| && 0 <= j < |ts|
      ensures Id(ts[i]) == Id(ts[j]) <==> SameMembers(ts[i], ts[j])
    {
      IdsInjective(ts[i], ts[j]);
    }
  }

  /** Types whose members are in range are never confused. */
  lemma InRangeLookups(ts: seq<ScalarType>, i: nat)
    requires i < |ts| && forall k :: 0 <= k < |ts| ==> InRange(ts[k])
    ensures Id(ts[i]) in MapAfter(ts) && MapAfter(ts)[Id(ts[i])] == ts[i] && FromId(Id(ts[i])) == ts[i]
  {
    hide Id, MapAfter, FromId, SameMembers;
    forall j, k | 0 <= j < k < |ts|
      ensures SameMembers(ts[j], ts[k]) ==> ts[j] == ts[k]
    {
      IdsInjective(ts[j], ts[k]);
    }
    LookupsAreExact(ts);
    RoundTrip(ts[i]);
  }
}
