/** Enumerators and flags: the names that come back from the bits they stood for. */
module SymbolTables {
  import opened Text
  import opened Catalogs
  import opened Integers
  import opened Leaves
  import opened Codec
  import J = JsonText

  // ---- Names in key order ----

  lemma {:induction false} DistinctByCount(names: seq<Text>, s: set<Text>)
    requires (forall k :: k in names <==> k in s) && |names| == |s|
    ensures forall i, j :: 0 <= i < j < |names| ==> names[i] != names[j]
    decreases |names|
  {
    if names != [] {
      var first, rest := names[0], names[1..];
      if first in rest {
        Fewer(rest, s);
      } else {
        assert forall k :: k in names <==> k == first || k in rest;
        DistinctByCount(rest, s - {first});
        forall i, j | 0 <= i < j < |names| ensures names[i] != names[j] {
          assert names[j] == rest[j - 1];
          if i > 0 {
            assert names[i] == rest[i - 1];
          }
        }
      }
    }
  }

  lemma {:induction false} Fewer(names: seq<Text>, s: set<Text>)
    requires forall k :: k in s ==> k in names
    ensures |s| <= |names|
    decreases |names|
  {
    if names == [] {
      assert s == {};
    } else {
      forall k | k in s - {names[0]} ensures k in names[1..] {
        assert k in names;
      }
      Fewer(names[1..], s - {names[0]});
    }
  }

  lemma NamesDistinct(values: map<Text, int>)
    ensures var names := NamesOf(values);
            && (forall k :: k in names <==> k in values)
            && forall i, j :: 0 <= i < j < |names| ==> names[i] != names[j]
  {
    DistinctByCount(NamesOf(values), values.Keys);
  }

  // ---- Enumerators ----

  ghost predicate Injective(values: map<Text, int>) {
    && (forall k :: k in values ==> values[k] >= 0)
    && forall k, l :: k in values && l in values && values[k] == values[l] ==> k == l
  }

  lemma {:induction false} SymbolFound(values: map<Text, int>, names: seq<Text>, name: Text, numeric: J.Json)
    requires (forall k :: k in names ==> k in values) && name in names && Injective(values)
    requires numeric == J.Num(values[name]) || numeric.Str?
    ensures SymbolOf(values, names, numeric, values[name]) == Some(name)
    decreases |names|
  {
    if names[0] != name {
      assert name in names[1..];
      SymbolFound(values, names[1..], name, numeric);
    }
  }

  // ---- Flags ----

  ghost predicate HasBit(values: map<Text, int>, name: Text, k: nat) {
    name in values && Bit(Unsigned64(values[name]), k)
  }

  /** Every bit of every name has a name of its own. */
  ghost predicate Covered(values: map<Text, int>) {
    forall name, k: nat :: HasBit(values, name, k) ==>
        exists one :: HasBit(values, one, k) && Single(Unsigned64(values[one]))
  }

  ghost predicate AnyBit(values: map<Text, int>, names: seq<J.Json>, k: nat) {
    exists i :: 0 <= i < |names| && names[i].Str? && HasBit(values, names[i].s, k)
  }

  lemma {:induction false} GatheredBits(values: map<Text, int>, names: seq<J.Json>, k: nat)
    requires Gathered(values, names).Some?
    ensures Bit(Gathered(values, names).value, k) <==> AnyBit(values, names, k)
    decreases |names|
  {
    NoBits(k);
    if names != [] {
      var rest := names[1..];
      GatheredBits(values, rest, k);
      OrBits(Unsigned64(values[names[0].s]), Gathered(values, rest).value, k);
      if AnyBit(values, rest, k) {
        var i :| 0 <= i < |rest| && rest[i].Str? && HasBit(values, rest[i].s, k);
        assert names[i + 1] == rest[i];
      }
      if AnyBit(values, names, k) {
        var i :| 0 <= i < |names| && names[i].Str? && HasBit(values, names[i].s, k);
        if i > 0 {
          assert rest[i - 1] == names[i];
        }
      }
    }
  }

  /** A single-bit name is shown exactly when its bit is set. */
  lemma ShownIfSet(values: map<Text, int>, name: Text, bits: nat)
    requires name in values && Single(Unsigned64(values[name]))
    ensures Shows(values, name, bits) <==> forall k: nat :: HasBit(values, name, k) ==> Bit(bits, k)
  {
    var bit := Unsigned64(values[name]);
    var place := SingleBit(bit);
    MeetBits(bits, bit, place);
    NoBits(place);
    if Meet(bits, bit) != 0 {
      var k := SomeBit(Meet(bits, bit));
      MeetBits(bits, bit, k);
    }
  }

  ghost predicate Shown(values: map<Text, int>, names: seq<Text>, bits: nat, k: nat) {
    exists i :: 0 <= i < |names| && names[i] in values && Shows(values, names[i], bits) && HasBit(values, names[i], k)
  }

  lemma {:induction false} UnnamedBits(values: map<Text, int>, names: seq<Text>, bits: nat, remaining: nat, k: nat)
    requires forall n :: n in names ==> n in values
    ensures Bit(Unnamed(values, names, bits, remaining), k) <==> Bit(remaining, k) && !Shown(values, names, bits, k)
    decreases |names|
  {
    hide Shows;
    if names != [] {
      var rest := names[1..];
      var bit := Unsigned64(values[names[0]]);
      UnnamedBits(values, rest, bits, if Shows(values, names[0], bits) then Without(remaining, bit) else remaining, k);
      WithoutBits(remaining, bit, k);
      ShownSplit(values, names, bits, k);
    }
  }

  lemma ShownSplit(values: map<Text, int>, names: seq<Text>, bits: nat, k: nat)
    requires names != [] && names[0] in values
    ensures Shown(values, names, bits, k)
        <==> (Shows(values, names[0], bits) && HasBit(values, names[0], k)) || Shown(values, names[1..], bits, k)
  {
    hide Shows, HasBit;
    var rest := names[1..];
    if Shown(values, rest, bits, k) {
      var i :| 0 <= i < |rest| && rest[i] in values && Shows(values, rest[i], bits) && HasBit(values, rest[i], k);
      assert names[i + 1] == rest[i];
    }
    if Shown(values, names, bits, k) {
      var i :| 0 <= i < |names| && names[i] in values && Shows(values, names[i], bits) && HasBit(values, names[i], k);
      if i > 0 {
        assert rest[i - 1] == names[i];
      }
    }
  }

  /** The names shown are distinct and gather to exactly the bits they show. */
  lemma {:induction false} ShownGather(values: map<Text, int>, names: seq<Text>, bits: nat)
    requires forall n :: n in names ==> n in values
    requires forall i, j :: 0 <= i < j < |names| ==> names[i] != names[j]
    ensures var shown := NamedFlags(values, names, bits);
            && Gathered(values, shown).Some?
            && (forall x :: x in shown ==> x.Str? && x.s in names)
            && forall k: nat :: Bit(Gathered(values, shown).value, k) <==> Shown(values, names, bits, k)
    decreases |names|
  {
    hide Shows;
    if names == [] {
      forall k: nat ensures !Bit(0, k) {
        NoBits(k);
      }
    } else {
      var first, rest := names[0], names[1..];
      ShownGather(values, rest, bits);
      var later := NamedFlags(values, rest, bits);
      assert first !in rest;
      var shown := NamedFlags(values, names, bits);
      if Shows(values, first, bits) {
        assert shown[0] == J.Str(first) && shown[1..] == later;
        assert J.Str(first) !in later;
      } else {
        assert shown == later;
      }
      forall k: nat ensures Bit(Gathered(values, shown).value, k) <==> Shown(values, names, bits, k) {
        ShownSplit(values, names, bits, k);
        if Shows(values, first, bits) {
          OrBits(Unsigned64(values[first]), Gathered(values, later).value, k);
        }
      }
    }
  }

  /** Of the bits of named flags nothing is left over, and exactly the bits are shown. */
  lemma BitsShown(values: map<Text, int>, names: seq<Text>, given: seq<J.Json>, k: nat)
    requires Covered(values) && Gathered(values, given).Some? && (forall n :: n in names <==> n in values)
    ensures Shown(values, names, Gathered(values, given).value, k) <==> Bit(Gathered(values, given).value, k)
  {
    hide Gathered, Shows;
    var bits := Gathered(values, given).value;
    GatheredBits(values, given, k);
    if Bit(bits, k) {
      var i :| 0 <= i < |given| && given[i].Str? && HasBit(values, given[i].s, k);
      var one :| HasBit(values, one, k) && Single(Unsigned64(values[one]));
      var place := SingleBit(Unsigned64(values[one]));
      ShownIfSet(values, one, bits);
      assert one in names;
      var j :| 0 <= j < |names| && names[j] == one;
      assert Shows(values, names[j], bits);
    }
    if Shown(values, names, bits, k) {
      var i :| 0 <= i < |names| && names[i] in values && Shows(values, names[i], bits) && HasBit(values, names[i], k);
      SingleShows(values, names[i], bits);
    }
  }

  lemma SingleShows(values: map<Text, int>, name: Text, bits: nat)
    requires name in values && Shows(values, name, bits)
    ensures forall k: nat :: HasBit(values, name, k) ==> Bit(bits, k)
  {
    ShownIfSet(values, name, bits);
  }

  /** A set of flags comes back as its single-bit names in key order, and those stand for
      the same bits. */
  lemma FlagsRoundTrip(values: map<Text, int>, given: seq<J.Json>)
    requires Covered(values) && Gathered(values, given).Some?
    ensures var bits, names := Gathered(values, given).value, NamesOf(values);
            && (forall n :: n in names ==> n in values)
            && Unnamed(values, names, bits, bits) == 0
            && Gathered(values, NamedFlags(values, names, bits)) == Some(bits)
  {
    hide Gathered, Unnamed, NamedFlags;
    var bits, names := Gathered(values, given).value, NamesOf(values);
    NamesDistinct(values);
    var left := Unnamed(values, names, bits, bits);
    if left > 0 {
      var k := SomeBit(left);
      UnnamedBits(values, names, bits, bits, k);
      BitsShown(values, names, given, k);
    }
    ShownGather(values, names, bits);
    var again := Gathered(values, NamedFlags(values, names, bits)).value;
    forall k: nat ensures Bit(again, k) <==> Bit(bits, k) {
      BitsShown(values, names, given, k);
    }
    SameBits(again, bits);
  }

  // ---- Both through their base type ----

  /** What the definition of an enumeration must satisfy. */
  ghost predicate GoodSymbols(base: Type, values: map<Text, int>, flags: bool) {
    (base == U8 || base == U16 || base == U32 || base == U64) && (if flags then Covered(values) else Injective(values))
  }

  function CanonSymbols(values: map<Text, int>, flags: bool, v: J.Json): J.Json {
    if flags && v.Arr? && Gathered(values, v.items).Some? then
      NamesDistinct(values);
      J.Arr(NamedFlags(values, NamesOf(values), Gathered(values, v.items).value))
    else v
  }

  /** The number that is written comes back unchanged and names the canonical symbols,
      which stand for the same number. */
  lemma SymbolsRoundTrip(h: Host, base: Type, values: map<Text, int>, flags: bool, v: J.Json)
    requires GoodSymbols(base, values, flags) && Numeric(base, values, flags, v).Good?
    requires WriteFixed(h, base, Numeric(base, values, flags, v).value).Good?
    ensures var numeric := Numeric(base, values, flags, v).value;
            && CanonFixed(h, base, numeric) == numeric
            && Symbolic(values, flags, numeric) == Good(CanonSymbols(values, flags, v))
            && Numeric(base, values, flags, CanonSymbols(values, flags, v)) == Good(numeric)
  {
    hide Numeric, Symbolic, CanonSymbols, WriteFixed, CanonFixed, Covered, Injective;
    if flags {
      FlagSetRoundTrip(h, base, values, v);
    } else {
      EnumeratorRoundTrip(h, base, values, v);
    }
  }

  lemma FlagSetRoundTrip(h: Host, base: Type, values: map<Text, int>, v: J.Json)
    requires GoodSymbols(base, values, true) && Numeric(base, values, true, v).Good?
    requires WriteFixed(h, base, Numeric(base, values, true, v).value).Good?
    ensures var numeric := Numeric(base, values, true, v).value;
            && CanonFixed(h, base, numeric) == numeric
            && Symbolic(values, true, numeric) == Good(CanonSymbols(values, true, v))
            && Numeric(base, values, true, CanonSymbols(values, true, v)) == Good(numeric)
  {
    hide Gathered, Unnamed, NamedFlags, WriteFixed, CanonFixed, Parsed, Decimal, Covered, Injective;
    InFormReads(h, base, Gathered(values, v.items).value);
    NamesDistinct(values);
    FlagsRoundTrip(values, v.items);
  }

  lemma EnumeratorRoundTrip(h: Host, base: Type, values: map<Text, int>, v: J.Json)
    requires GoodSymbols(base, values, false) && Numeric(base, values, false, v).Good?
    requires WriteFixed(h, base, Numeric(base, values, false, v).value).Good?
    ensures var numeric := Numeric(base, values, false, v).value;
            && CanonFixed(h, base, numeric) == numeric
            && Symbolic(values, false, numeric) == Good(CanonSymbols(values, false, v))
            && Numeric(base, values, false, CanonSymbols(values, false, v)) == Good(numeric)
  {
    hide SymbolOf, WriteFixed, CanonFixed, Parsed, Decimal;
    InFormReads(h, base, values[v.s]);
    NamesDistinct(values);
    SymbolFound(values, NamesOf(values), v.s, InForm(base, values[v.s]));
  }

  lemma InFormReads(h: Host, base: Type, n: int)
    requires (base == U8 || base == U16 || base == U32 || base == U64) && n >= 0
    requires WriteFixed(h, base, InForm(base, n)).Good?
    ensures Unsigned64(n) == n && CanonFixed(h, base, InForm(base, n)) == InForm(base, n)
    ensures base == U64 ==> Parsed(InForm(base, n).s, false) == Some(n)
  {
    hide Decimal, Parsed, WriteInt;
    ParsedDecimal(n, false);
    Pow256Values();
  }

  lemma Pow256Values()
    ensures Pow256(1) == 0x100 && Pow256(2) == 0x1_0000 && Pow256(4) == 0x1_0000_0000
    ensures Pow256(8) == 0x1_0000_0000_0000_0000
  {
    assert Pow256(4) == 0x1_0000_0000;
  }
}
