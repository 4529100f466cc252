/** A catalog with the native address types that the codec serves without loss, and what
    goes wrong where a union has no discriminator. */
module CatalogExample {
  import opened Text
  import opened Catalogs
  import opened Integers
  import opened Leaves
  import opened Codec
  import opened SymbolTables
  import opened CodecSizes
  import opened Canonical
  import J = JsonText

  const FAMILY := Named(Ascii("vl_api_address_family_t"))
  const FLAGS := Named(Ascii("vl_api_flags_t"))
  const MESSAGE := Named(Ascii("example"))

  function Plain(name: Text, t: Type): Field { Field(name, t, None, None, None, None, None) }

  function Member(name: Text, t: Type, case_: Text): Field {
    Field(name, t, None, None, None, None, Some(J.Str(case_)))
  }

  function Array(name: Text, t: Type, count: Text): Field { Field(name, t, Some(0), Some(count), None, None, None) }

  const COUNT := Ascii("count")
  const VALUES := Ascii("values")
  const SET := Ascii("flags")
  const LARGE := Ascii("large")

  const CATALOG: Catalog := map[
    FAMILY := Enumeration(U8, map[ADDRESS_IP4 := 0, ADDRESS_IP6 := 1], false),
    FLAGS := Enumeration(U32, map[Ascii("ONE") := 1, Ascii("TWO") := 2], true),
    Ip4 := Alias(U8, Some(4)),
    Ip6 := Alias(U8, Some(16)),
    AddressUnion := Union([Member(IP4, Ip4, ADDRESS_IP4), Member(IP6, Ip6, ADDRESS_IP6)]),
    Address := Struct([Plain(AF, FAMILY), Plain(UN, AddressUnion)]),
    Prefix := Struct([Plain(ADDRESS, Address), Plain(LEN, U8)]),
    MESSAGE := Struct([Plain(COUNT, U8), Array(VALUES, U16, COUNT), Plain(SET, FLAGS), Plain(LARGE, U64)])]

  lemma SingleFlags(values: map<Text, int>)
    requires forall k :: k in values ==> Single(Unsigned64(values[k]))
    ensures Covered(values)
  {
    forall name, k: nat | HasBit(values, name, k)
      ensures exists one :: HasBit(values, one, k) && Single(Unsigned64(values[one]))
    {
      assert HasBit(values, name, k) && Single(Unsigned64(values[name]));
    }
  }

  lemma CatalogIsGood()
    ensures GoodCatalog(CATALOG)
  {
    hide NativeSizes, GoodDefinition, Ascii;
    NamesApart();
    SizesAreNative();
    forall t | t in CATALOG ensures GoodDefinition(CATALOG, t, CATALOG[t]) {
      if t == FAMILY || t == FLAGS || t == Ip4 || t == Ip6 {
        ScalarsAreGood(t);
      } else if t == AddressUnion {
        UnionIsGood();
      } else if t == Address {
        AddressIsGood();
      } else if t == Prefix {
        PrefixIsGood();
      } else {
        MessageIsGood();
      }
    }
  }

  lemma NamesApart()
    ensures FAMILY != FLAGS && FAMILY != MESSAGE && FLAGS != MESSAGE
  {
    assert |FAMILY.name| != |FLAGS.name| && |FAMILY.name| != |MESSAGE.name| && |FLAGS.name| != |MESSAGE.name|;
  }

  lemma SizesAreNative()
    ensures NativeSizes(CATALOG)
  {
    hide Ascii;
    NamesApart();
    forall t | t in {Interface, Ip4, Ip6, Mac} && FixedSize(CATALOG, t, 0) >= 0
      ensures FixedSize(CATALOG, t, 0) == NativeSize(t)
    {
      if t in CATALOG {
        assert FixedSize(CATALOG, t, 0) == DefinedSize(CATALOG, CATALOG[t], 0);
        assert FixedSize(CATALOG, U8, 1) == 1;
      }
    }
  }

  lemma ScalarsAreGood(t: Type)
    requires t == FAMILY || t == FLAGS || t == Ip4 || t == Ip6
    ensures GoodDefinition(CATALOG, t, CATALOG[t])
  {
    hide Ascii;
    NamesApart();
    assert ADDRESS_IP4 != ADDRESS_IP6 by { FamiliesApart(); }
    if t == FLAGS {
      SingleFlags(CATALOG[t].values);
    }
  }

  lemma FamiliesApart()
    ensures ADDRESS_IP4 != ADDRESS_IP6 && IP4 != IP6 && AF != UN && ADDRESS != LEN && COUNT != VALUES
  {
    assert ADDRESS_IP4[10] != ADDRESS_IP6[10] && IP4[2] != IP6[2] && AF[0] != UN[0];
  }

  lemma UnionIsGood()
    ensures GoodDefinition(CATALOG, AddressUnion, CATALOG[AddressUnion])
  {
    hide Ascii;
    NamesApart();
    FamiliesApart();
  }

  lemma AddressIsGood()
    ensures GoodDefinition(CATALOG, Address, CATALOG[Address])
  {
    hide Ascii, GoodField;
    NamesApart();
    FamiliesApart();
    AddressFieldsAreGood();
  }

  lemma AddressFieldsAreGood()
    ensures var fields := CATALOG[Address].fields;
            GoodField(CATALOG, Address, fields, 0) && GoodField(CATALOG, Address, fields, 1)
  {
    hide GoodField, CATALOG;
    FirstAddressField();
    SecondAddressField();
  }

  lemma AddressEntry()
    ensures Address in CATALOG && CATALOG[Address] == Struct([Plain(AF, FAMILY), Plain(UN, AddressUnion)])
    ensures FAMILY in CATALOG && CATALOG[FAMILY].Enumeration? && FAMILY != FibPathNh
  {
    hide Ascii;
    NamesApart();
  }

  lemma EnumerationIsUntagged(c: Catalog, t: Type)
    requires t in c && c[t].Enumeration? && t != FibPathNh
    ensures !Tagged(c, t)
  {
  }

  lemma UnkeyedIsGood(c: Catalog, within: Type, fields: seq<Field>, i: nat)
    requires i < |fields| && fields[i].count.None? && !Tagged(c, fields[i].type_) && KeyOf(within, fields[i]).None?
    ensures GoodField(c, within, fields, i)
  {
  }

  lemma FirstAddressField()
    ensures GoodField(CATALOG, Address, CATALOG[Address].fields, 0)
  {
    hide CATALOG, Ascii, Tagged, GoodField;
    AddressEntry();
    FamiliesApart();
    NamesApart();
    EnumerationIsUntagged(CATALOG, FAMILY);
    UnkeyedIsGood(CATALOG, Address, CATALOG[Address].fields, 0);
  }

  lemma KeyedIsGood(c: Catalog, within: Type, fields: seq<Field>, i: nat, j: nat)
    requires i < |fields| && fields[i].count.None? && !IsArray(fields[i]) && KeyOf(within, fields[i]).Some?
    requires Earlier(fields, i, j, KeyOf(within, fields[i]).value) && Steady(c, fields[j])
    ensures GoodField(c, within, fields, i)
  {
  }

  lemma SecondAddressField()
    ensures GoodField(CATALOG, Address, CATALOG[Address].fields, 1)
  {
    hide CATALOG, Ascii, Tagged, GoodField, Steady;
    AddressEntry();
    FamilyIsSteady();
    KeyedIsGood(CATALOG, Address, CATALOG[Address].fields, 1, 0);
  }

  lemma FamilyIsSteady()
    ensures Steady(CATALOG, CATALOG[Address].fields[0])
  {
    hide Ascii;
    NamesApart();
  }

  lemma PrefixIsGood()
    ensures GoodDefinition(CATALOG, Prefix, CATALOG[Prefix])
  {
    hide Ascii;
    NamesApart();
    FamiliesApart();
  }

  lemma MessageNames()
    ensures |COUNT| == 5 && |VALUES| == 6 && |SET| == 5 && |LARGE| == 5
    ensures COUNT != SET && COUNT != LARGE && SET != LARGE
  {
    assert COUNT[0] != SET[0] && COUNT[0] != LARGE[0] && SET[0] != LARGE[0];
  }

  lemma MessageFieldIsGood(i: nat)
    requires i < |CATALOG[MESSAGE].fields|
    ensures GoodField(CATALOG, MESSAGE, CATALOG[MESSAGE].fields, i)
  {
    hide Ascii, Steady;
    NamesApart();
    MessageNames();
    var fields := CATALOG[MESSAGE].fields;
    assert Earlier(fields, 1, 0, COUNT) && IsCounter(fields[0]);
    assert CATALOG[FLAGS].Enumeration?;
  }

  lemma MessageIsGood()
    ensures GoodDefinition(CATALOG, MESSAGE, CATALOG[MESSAGE])
  {
    hide Ascii, GoodField;
    NamesApart();
    MessageNames();
    forall i | 0 <= i < |CATALOG[MESSAGE].fields| ensures GoodField(CATALOG, MESSAGE, CATALOG[MESSAGE].fields, i) {
      MessageFieldIsGood(i);
    }
  }

  /** A union can be written on its own, although it cannot be read. */
  lemma UnionIsEncoded(h: Host, text: Text)
    requires h.ip4(UpToNul(text)).Some? && |h.ip4(UpToNul(text)).value| == 4
    ensures Encode(Env(CATALOG, h), AddressUnion, J.Obj(map[IP4 := J.Str(text)])).Good? && Tagged(CATALOG, AddressUnion)
  {
    hide Ascii, FixedSize, Variable, WriteUnion, Write, CATALOG, Tagged, MemberNamed;
    var env, v := Env(CATALOG, h), J.Str(text);
    UnionIsThere();
    UnionIsSized();
    MemberIsWritten(env, text);
    UnionOfOne(env, CATALOG[AddressUnion].fields, v);
    UnionAsDefined(env, J.Obj(map[IP4 := v]));
  }

  lemma UnionIsThere()
    ensures AddressUnion in CATALOG && CATALOG[AddressUnion].Union? && Tagged(CATALOG, AddressUnion)
    ensures MemberNamed(CATALOG[AddressUnion].fields, IP4) == Some(Member(IP4, Ip4, ADDRESS_IP4))
  {
    hide Ascii;
    NamesApart();
    FamiliesApart();
    var fields := CATALOG[AddressUnion].fields;
    assert fields == [Member(IP4, Ip4, ADDRESS_IP4), Member(IP6, Ip6, ADDRESS_IP6)];
    assert fields[..1] == [fields[0]] && MemberNamed([fields[0]], IP4) == Some(fields[0]);
  }

  lemma UnionAsDefined(env: Env, v: J.Json)
    requires AddressUnion in env.catalog && env.catalog[AddressUnion].Union?
    ensures Encode(env, AddressUnion, v)
         == WriteUnion(env, AddressUnion, env.catalog[AddressUnion].fields, v, None, 0, 0)
  {
    hide WriteUnion;
    assert Write(env, AddressUnion, v, None, 0, 0)
        == WriteDefined(env, AddressUnion, env.catalog[AddressUnion], v, None, 0, 0);
  }

  lemma MemberIsWritten(env: Env, text: Text)
    requires env.host.ip4(UpToNul(text)).Some? && |env.host.ip4(UpToNul(text)).value| == 4
    ensures Write(env, Ip4, J.Str(text), None, 1, 0).Good?
  {
    assert WriteLeaf(env.host, Ip4, J.Str(text), 0).Good?;
  }

  lemma UnionOfOne(env: Env, fields: seq<Field>, v: J.Json)
    requires FixedSize(env.catalog, AddressUnion, 0) == 16 && !Variable(env.catalog, AddressUnion, 0)
    requires MemberNamed(fields, IP4).Some? && Write(env, MemberNamed(fields, IP4).value.type_, v, None, 1, 0).Good?
    ensures WriteUnion(env, AddressUnion, fields, J.Obj(map[IP4 := v]), None, 0, 0).Good?
  {
    hide Ascii, Write, FixedSize, Variable, MemberNamed;
    var m: Members := map[IP4 := v];
    assert m.Keys == {IP4};
    assert |m| == |m.Keys| == 1;
    assert Sorted(m.Keys)[0] in m.Keys;
  }

  lemma UnionIsSized()
    ensures FixedSize(CATALOG, AddressUnion, 0) == 16 && !Variable(CATALOG, AddressUnion, 0)
  {
    hide Ascii;
    NamesApart();
    var c, fields := CATALOG, CATALOG[AddressUnion].fields;
    AliasIsSized(Ip4, 4);
    AliasIsSized(Ip6, 16);
    assert FieldSizes(c, fields, 0, true, 0) == 0;
    assert FieldSize(c, fields[0], 0) == 4 && FieldSize(c, fields[1], 0) == 16;
    assert FieldSizes(c, fields, 1, true, 0) == 4;
    assert FieldSizes(c, fields, 2, true, 0) == 16;
    assert FixedSize(c, AddressUnion, 0) == DefinedSize(c, c[AddressUnion], 0);
    assert !VariableField(c, fields[0], 0) && !VariableField(c, fields[1], 0);
  }

  lemma AliasIsSized(t: Type, size: nat)
    requires (t == Ip4 && size == 4) || (t == Ip6 && size == 16)
    ensures FixedSize(CATALOG, t, 1) == size && !Variable(CATALOG, t, 1)
  {
    hide Ascii;
    NamesApart();
    assert FixedSize(CATALOG, U8, 2) == 1 && !Variable(CATALOG, U8, 2);
    assert FixedSize(CATALOG, t, 1) == DefinedSize(CATALOG, CATALOG[t], 1);
  }
}
