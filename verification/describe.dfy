/** The published schema of a type, and that everything the encoder accepts satisfies it. */
module Descriptions {
  import opened Text
  import opened Catalogs
  import opened Integers
  import opened Leaves
  import opened Codec
  import opened SymbolTables
  import opened CodecSizes
  import opened Canonical
  import opened RoundTrips
  import opened CodecRoundTrip
  import J = JsonText

  /** The keywords the descriptions use. `Opaque` constrains nothing; formats and defaults
      are annotations and not kept. */
  datatype Schema =
    | Opaque
    | AnyText
    | Decimals(signed: bool)
    | ShortText(maxLength: nat)
    | Whole(minimum: int, maximum: int)
    | Truth
    | Numeral
    | OneOf(names: set<Text>)
    | Series(items: Schema, minItems: Option<nat>, maxItems: Option<nat>, unique: bool)
    | Record(properties: map<Text, Schema>, required: set<Text>, single: bool)

  /** Section 6 of JSON Schema Validation, draft 2020-12, for these keywords; properties
      that are not listed are not allowed. */
  ghost predicate Satisfies(s: Schema, v: J.Json) {
    match s
    case Opaque => true
    case AnyText => v.Str?
    case Decimals(signed) =>
      v.Str? && ((v.s != [] && AllDigits(v.s)) || (signed && |v.s| > 1 && v.s[0] == 45 && AllDigits(v.s[1..])))
    case ShortText(most) => v.Str? && |v.s| <= most
    case Whole(low, high) => v.Num? && low <= v.n <= high
    case Truth => v.Bool?
    case Numeral => v.Num? || v.Float?
    case OneOf(names) => v.Str? && v.s in names
    case Series(items, least, most, unique) =>
      && v.Arr? && (least.Some? ==> least.value <= |v.items|) && (most.Some? ==> |v.items| <= most.value)
      && (unique ==> forall i, j :: 0 <= i < j < |v.items| ==> v.items[i] != v.items[j])
      && forall i :: 0 <= i < |v.items| ==> Satisfies(items, v.items[i])
    case Record(properties, required, single) =>
      && v.Obj? && v.m.Keys <= properties.Keys && required <= v.m.Keys && (single ==> |v.m| == 1)
      && forall k :: k in v.m ==> k in properties && Satisfies(properties[k], v.m[k])
  }

  function Bound(w: nat): int { if w == 1 then 0x100 else if w == 2 then 0x1_0000 else 0x1_0000_0000 }

  function Integer(t: Type): Schema
    requires IsInt(t)
  {
    var values := Bound(Width(t));
    if Signed(t) then Whole(-(values / 2), values / 2 - 1) else Whole(0, values - 1)
  }

  function Describe(c: Catalog, t: Type, depth: nat): Schema
    requires depth <= MAX_DEPTH + 1
    decreases MAX_DEPTH + 1 - depth, 2, 0
  {
    if depth > MAX_DEPTH then Opaque
    else if IsLong(t) then Decimals(Signed(t))
    else if t == Boolean then Truth
    else if t == F32 || t == F64 then Numeral
    else if t == Interface || t == Characters then AnyText
    else if IsInt(t) && t !in c then Integer(t)
    else if t == Mac || t == Address || t == Ip4 || t == Ip6 || IsPrefix(t) then AnyText
    else if t !in c then Opaque
    else
      match c[t]
      case Alias(base, None) => Describe(c, base, depth + 1)
      case Alias(base, length) => Series(Describe(c, base, depth + 1), length, length, false)
      case Enumeration(_, values, flags) => if flags then Series(OneOf(values.Keys), None, None, true)
        else OneOf(values.Keys)
      case Struct(fields) => Record(Properties(c, fields, |fields|, depth), Required(fields), false)
      case Union(fields) => Record(Properties(c, fields, |fields|, depth), {}, true)
  }

  function Required(fields: seq<Field>): set<Text> {
    set i | 0 <= i < |fields| && fields[i].default_.None? && fields[i].name !in Counts(fields) :: fields[i].name
  }

  function Properties(c: Catalog, fields: seq<Field>, n: nat, depth: nat): map<Text, Schema>
    requires n <= |fields| && depth <= MAX_DEPTH
    decreases MAX_DEPTH + 1 - depth, 1, n
  {
    if n == 0 then map[]
    else
      var before, f := Properties(c, fields, n - 1, depth), fields[n - 1];
      if f.name in Counts(fields) then before else before[f.name := DescribeField(c, f, depth)]
  }

  function DescribeField(c: Catalog, f: Field, depth: nat): Schema
    requires depth <= MAX_DEPTH
    decreases MAX_DEPTH + 1 - depth, 0, 0
  {
    if FixedText(f) then ShortText(f.length.value - 1)
    else if IsArray(f) then
      (if f.count.None? then Series(Describe(c, f.type_, depth + 1), f.length, f.length, false)
       else Series(Describe(c, f.type_, depth + 1), None, None, false))
    else Describe(c, f.type_, depth + 1)
  }

  // ---- Basic types ----

  lemma IntegerIsSound(h: Host, t: Type, v: J.Json)
    requires IsInt(t) && WriteFixed(h, t, v).Good?
    ensures Satisfies(Integer(t), v)
  {
    hide WriteInt;
    Pow256Values();
  }

  lemma DecimalIsSound(h: Host, t: Type, v: J.Json)
    requires IsLong(t) && WriteFixed(h, t, v).Good?
    ensures Satisfies(Decimals(Signed(t)), v)
  {
    hide WriteInt, InRange;
  }

  /** The floating-point conversions take numbers only. */
  ghost predicate NumbersOnly(h: Host) {
    forall v :: (h.f32(v).Some? ==> v.Num? || v.Float?) && (h.f64(v).Some? ==> v.Num? || v.Float?)
  }

  lemma LeafIsSound(env: Env, t: Type, v: J.Json, depth: nat, used: nat)
    requires NumbersOnly(env.host) && IsLeaf(t) && (IsInt(t) ==> t !in env.catalog) && depth <= MAX_DEPTH
    requires WriteLeaf(env.host, t, v, used).Good?
    ensures Satisfies(Describe(env.catalog, t, depth), v)
  {
    hide WriteInt, InRange, MacBytes, IsMac, Ascii, Parsed, Integer, Satisfies;
    if IsInt(t) {
      IntegerIsSound(env.host, t, v);
    } else if IsLong(t) {
      DecimalIsSound(env.host, t, v);
    } else {
      OtherIsSound(env.host, t, v, used);
    }
  }

  lemma OtherIsSound(h: Host, t: Type, v: J.Json, used: nat)
    requires NumbersOnly(h) && IsLeaf(t) && !IsInt(t) && !IsLong(t) && WriteLeaf(h, t, v, used).Good?
    ensures Satisfies(if t == Boolean then Truth else if t == F32 || t == F64 then Numeral else AnyText, v)
  {
    hide MacBytes, IsMac, Ascii;
  }

  // ---- Enumerations ----

  lemma {:induction false} GatheredAreNames(values: map<Text, int>, names: seq<J.Json>)
    requires Gathered(values, names).Some?
    ensures forall i :: 0 <= i < |names| ==> names[i].Str? && names[i].s in values
    ensures forall i, j :: 0 <= i < j < |names| ==> names[i] != names[j]
    decreases |names|
  {
    if names != [] {
      var rest := names[1..];
      GatheredAreNames(values, rest);
      forall i | 0 < i < |names| ensures names[i] == rest[i - 1] {
      }
      assert forall x :: x in rest ==> x != names[0];
    }
  }

  lemma SymbolsAreSound(base: Type, values: map<Text, int>, flags: bool, v: J.Json)
    requires Numeric(base, values, flags, v).Good?
    ensures Satisfies(if flags then Series(OneOf(values.Keys), None, None, true) else OneOf(values.Keys), v)
  {
    hide Gathered;
    if flags {
      GatheredAreNames(values, v.items);
    }
  }

  // ---- Everything ----

  ghost predicate Described(env: Env) {
    Serves(env) && NumbersOnly(env.host) && forall t :: t in env.catalog ==> !IsInt(t)
  }

  /** Every value the encoder accepts satisfies the description of its type. */
  lemma {:induction false} DescriptionIsSound(env: Env, t: Type, v: J.Json, tag: Option<J.Json>, depth: nat, used: nat)
    requires Described(env) && depth <= MAX_DEPTH + 1 && Write(env, t, v, tag, depth, used).Good?
    ensures Satisfies(Describe(env.catalog, t, depth), v)
    decreases MAX_DEPTH + 1 - depth, 4, 0
  {
    hide Write, WriteItems, WriteUnion, WriteFields, WriteLeaf, IsLeaf, Satisfies, Describe, Serves, NumbersOnly,
         Numeric, GoodMembers, Lifted;
    TooDeep(env, t, v, tag, used);
    if IsLeaf(t) {
      OfLeaf(env, t, v, [], tag, depth, used);
      LeafIsSound(env, t, v, depth, used);
    } else {
      KnownType(env, t, v, tag, depth, used);
      TextIsStruct(env, t);
      match env.catalog[t]
      case Alias(base, None) =>
        OfAlias(env, t, v, [], tag, depth, used);
        DescriptionIsSound(env, base, v, tag, depth + 1, used);
        AliasDescribed(env.catalog, t, base, depth);
      case Alias(base, Some(n)) =>
        OfArray(env, t, v, [], tag, depth, used);
        ItemsSound(env, base, v.items, depth + 1, used);
        ArrayDescribed(env.catalog, t, base, n, v, depth);
      case Enumeration(base, values, flags) =>
        OfEnumeration(env, t, base, values, flags, v, tag, depth, used);
        SymbolsAreSound(base, values, flags, v);
        EnumerationDescribed(env.catalog, t, base, values, flags, depth);
      case Union(fields) =>
        MembersAreGood(env, t);
        OfUnion(env, t, v, [], tag, depth, used);
        UnionSound(env, t, v, tag, depth, used);
      case Struct(fields) =>
        if t == Address || IsPrefix(t) {
          OfStruct(env, t, v, tag, depth, used);
          TextIsText(t, v);
          TextDescribed(env.catalog, t, depth);
        } else {
          StructSound(env, t, v, tag, depth, used);
        }
    }
  }

  lemma TextIsStruct(env: Env, t: Type)
    requires Serves(env) && t in env.catalog
    ensures t == Address || IsPrefix(t) ==> env.catalog[t].Struct?
  {
    hide Consistent, NativeSizes, GoodDefinition;
  }

  lemma EnumerationDescribed(c: Catalog, t: Type, base: Type, values: map<Text, int>, flags: bool, depth: nat)
    requires !IsLeaf(t) && depth <= MAX_DEPTH && t in c && c[t] == Enumeration(base, values, flags) && t != Address
    requires !IsPrefix(t)
    ensures Describe(c, t, depth) == if flags then Series(OneOf(values.Keys), None, None, true) else OneOf(values.Keys)
  {
    NotBasic(c, t);
  }

  lemma TextDescribed(c: Catalog, t: Type, depth: nat)
    requires (t == Address || IsPrefix(t)) && depth <= MAX_DEPTH
    ensures Describe(c, t, depth) == AnyText
  {
  }

  lemma NotBasic(c: Catalog, t: Type)
    requires !IsLeaf(t)
    ensures !IsLong(t) && t != Boolean && t != F32 && t != F64 && t != Interface && t != Characters && !IsInt(t)
    ensures t != Mac && t != Ip4 && t != Ip6
  {
  }

  lemma TextIsText(t: Type, v: J.Json)
    requires (t == Address || IsPrefix(t)) && Lifted(t, v).Good?
    ensures Satisfies(AnyText, v)
  {
    hide Ascii, LiftedPrefix;
  }

  /** Types spelled as text are described as text, whatever they are defined as. */
  lemma AliasDescribed(c: Catalog, t: Type, base: Type, depth: nat)
    requires !IsLeaf(t) && depth <= MAX_DEPTH && t in c && c[t] == Alias(base, None)
    ensures t == Address || IsPrefix(t) || Describe(c, t, depth) == Describe(c, base, depth + 1)
  {
    NotBasic(c, t);
  }

  lemma ArrayDescribed(c: Catalog, t: Type, base: Type, n: nat, v: J.Json, depth: nat)
    requires !IsLeaf(t) && depth <= MAX_DEPTH && t in c && c[t] == Alias(base, Some(n)) && v.Arr? && |v.items| == n
    requires forall i :: 0 <= i < n ==> Satisfies(Describe(c, base, depth + 1), v.items[i])
    ensures t == Address || IsPrefix(t) || Satisfies(Describe(c, t, depth), v)
  {
    NotBasic(c, t);
  }

  lemma {:induction false} ItemsSound(env: Env, t: Type, items: seq<J.Json>, depth: nat, used: nat)
    requires Described(env) && depth <= MAX_DEPTH + 1 && WriteItems(env, t, items, depth, used).Good?
    ensures forall i :: 0 <= i < |items| ==> Satisfies(Describe(env.catalog, t, depth), items[i])
    decreases MAX_DEPTH + 1 - depth, 5, |items|
  {
    hide Write, WriteItems, Satisfies, Describe, Described;
    if items != [] {
      OfItems(env, t, items, depth, used);
      DescriptionIsSound(env, t, items[0], None, depth, used);
      ItemsSound(env, t, items[1..], depth, used + |Write(env, t, items[0], None, depth, used).value|);
      forall i | 0 <= i < |items| ensures Satisfies(Describe(env.catalog, t, depth), items[i]) {
        if i > 0 {
          assert items[i] == items[1..][i - 1];
        }
      }
    }
  }

  // ---- Fields ----

  /** What the schema says of the field of a name. */
  lemma {:induction false} PropertyOf(c: Catalog, fields: seq<Field>, n: nat, depth: nat, i: nat)
    requires i < n <= |fields| && depth <= MAX_DEPTH && Distinct(fields) && fields[i].name !in Counts(fields)
    ensures fields[i].name in Properties(c, fields, n, depth)
    ensures Properties(c, fields, n, depth)[fields[i].name] == DescribeField(c, fields[i], depth)
    decreases n
  {
    hide DescribeField, Counts;
    if i < n - 1 {
      PropertyOf(c, fields, n - 1, depth, i);
    }
  }

  lemma {:induction false} FieldSound(env: Env, t: Type, f: Field, members: Members, item: J.Json, tag: Option<J.Json>,
                                      depth: nat, used: nat)
    requires Described(env) && depth <= MAX_DEPTH && WriteField(env, t, f, members, item, tag, depth, used).Good?
    ensures Satisfies(DescribeField(env.catalog, f, depth), item)
    decreases MAX_DEPTH + 1 - depth, 2, 0
  {
    hide Write, WriteItems, WriteField, Describe, Described, Chosen, ArrayCount;
    if FixedText(f) {
      TextFieldGiven(env, t, f, members, item, tag, depth, used);
    } else if IsArray(f) {
      OfArrayField(env, t, f, members, item, tag, depth, used);
      ItemsSound(env, f.type_, item.items, depth + 1, used);
      if f.count.None? {
        CountGiven(f, members);
      }
    } else {
      FieldIsChosen(env, t, f, members, item, tag, depth, used);
      DescriptionIsSound(env, f.type_, item, Chosen(t, f, members, tag).value, depth + 1, used);
    }
  }

  lemma TextFieldGiven(env: Env, t: Type, f: Field, members: Members, item: J.Json, tag: Option<J.Json>, depth: nat,
                       used: nat)
    requires depth <= MAX_DEPTH && FixedText(f) && WriteField(env, t, f, members, item, tag, depth, used).Good?
    ensures item.Str? && |item.s| < f.length.value
  {
  }

  lemma CountGiven(f: Field, members: Members)
    requires IsArray(f) && ArrayCount(f, members).Good? && f.count.None?
    ensures ArrayCount(f, members).value == f.length.value
  {
  }

  lemma UnionSound(env: Env, t: Type, v: J.Json, tag: Option<J.Json>, depth: nat, used: nat)
    requires Described(env) && depth <= MAX_DEPTH && !IsLeaf(t) && t in env.catalog && env.catalog[t].Union?
    requires WriteUnion(env, t, env.catalog[t].fields, v, tag, depth, used).Good?
    ensures Satisfies(Describe(env.catalog, t, depth), v)
    decreases MAX_DEPTH + 1 - depth, 3, 0
  {
    hide Write, WriteUnion, Describe, FixedSize, Variable, MemberNamed, Properties, Serves, IsLeaf, Satisfies,
         DescribeField, Counts, TaggedWithin, Canon, CanonUnion, Settled, SettledUnion, NumbersOnly, Resized, Fit;
    var c, fields := env.catalog, env.catalog[t].fields;
    MembersAreGood(env, t);
    OfMember(env, t, fields, v, tag, depth, used);
    var name := Sorted(v.m.Keys)[0];
    MemberIsThere(fields, name);
    var member := MemberNamed(fields, name).value;
    var i :| 0 <= i < |fields| && fields[i] == member;
    UnionDescribed(c, t, depth);
    NoCounts(fields);
    PropertyOf(c, fields, |fields|, depth, i);
    DescriptionIsSound(env, member.type_, v.m[name], None, depth + 1, 0);
    PlainDescribed(c, member, depth);
    OnlyKey(v, name);
    OnlyProperty(Properties(c, fields, |fields|, depth), v, name);
  }

  lemma PlainDescribed(c: Catalog, f: Field, depth: nat)
    requires depth <= MAX_DEPTH && f.length.None?
    ensures DescribeField(c, f, depth) == Describe(c, f.type_, depth + 1)
  {
    hide Describe;
  }

  lemma OnlyProperty(properties: map<Text, Schema>, v: J.Json, name: Text)
    requires v.Obj? && |v.m| == 1 && v.m.Keys == {name} && name in properties && Satisfies(properties[name], v.m[name])
    ensures Satisfies(Record(properties, {}, true), v)
  {
  }

  lemma OnlyKey(v: J.Json, name: Text)
    requires v.Obj? && |v.m| == 1 && name == Sorted(v.m.Keys)[0]
    ensures v.m.Keys == {name}
  {
    assert |v.m.Keys| == |v.m|;
    assert name in v.m.Keys;
    assert |v.m.Keys - {name}| == 0;
  }

  lemma NoCounts(fields: seq<Field>)
    requires forall i :: 0 <= i < |fields| ==> fields[i].count.None?
    ensures Counts(fields) == {}
  {
  }

  lemma UnionDescribed(c: Catalog, t: Type, depth: nat)
    requires !IsLeaf(t) && depth <= MAX_DEPTH && t in c && c[t].Union? && t != Address && !IsPrefix(t)
    ensures Describe(c, t, depth) == Record(Properties(c, c[t].fields, |c[t].fields|, depth), {}, true)
  {
    hide Properties;
    NotBasic(c, t);
  }

  lemma StructDescribed(c: Catalog, t: Type, depth: nat)
    requires !IsLeaf(t) && depth <= MAX_DEPTH && t in c && c[t].Struct? && t != Address && !IsPrefix(t)
    ensures Describe(c, t, depth)
         == Record(Properties(c, c[t].fields, |c[t].fields|, depth), Required(c[t].fields), false)
  {
    hide Properties, Required;
    NotBasic(c, t);
  }

  /** Preparing an object adds lengths and nothing else. */
  lemma {:induction false} CountedKeeps(fields: seq<Field>, i: nat, members: Members)
    requires i <= |fields| && Counted(fields, i, members).Good?
    ensures var all := Counted(fields, i, members).value;
            && members.Keys <= all.Keys <= members.Keys + Counts(fields)
            && forall k :: k in members && k !in Counts(fields) ==> all[k] == members[k]
    decreases |fields| - i
  {
    if i < |fields| {
      if fields[i].count.None? {
        CountedKeeps(fields, i + 1, members);
      } else {
        CountedKeeps(fields, i + 1, members[fields[i].count.value := J.Num(|members[fields[i].name].items|)]);
      }
    }
  }

  lemma StructSound(env: Env, t: Type, v: J.Json, tag: Option<J.Json>, depth: nat, used: nat)
    requires Described(env) && depth <= MAX_DEPTH && !IsLeaf(t) && t in env.catalog && env.catalog[t].Struct?
    requires t != Address && !IsPrefix(t)
    requires Write(env, t, v, tag, depth, used).Good?
    ensures Satisfies(Describe(env.catalog, t, depth), v)
    decreases MAX_DEPTH + 1 - depth, 3, 0
  {
    hide Write, WriteFields, WriteField, Describe, Properties, Serves, IsLeaf, ItemOf, Counts, DescribeField,
         GoodFields, Filled, Counted, Distinct, Start;
    var c, fields := env.catalog, env.catalog[t].fields;
    FieldsAreGood(env, t);
    GoodIsDistinct(c, t, fields);
    OfStruct(env, t, v, tag, depth, used);
    assert Lifted(t, v) == Good(v);
    var start := Start(t, fields, v);
    CountedKeeps(fields, 0, v.m);
    FilledStart(c, fields, start);
    StructDescribed(c, t, depth);
    forall k | k in v.m
      ensures k in Properties(c, fields, |fields|, depth)
      ensures Satisfies(Properties(c, fields, |fields|, depth)[k], v.m[k])
    {
      assert IsNamed(fields, k) && k !in Counts(fields);
      var i :| 0 <= i < |fields| && fields[i].name == k;
      PropertyOf(c, fields, |fields|, depth, i);
      var at, before := FieldWritten(env, t, fields, 0, start, start, tag, depth, used, i);
      GivenItem(c, fields[i], start);
      FieldSound(env, t, fields[i], at, v.m[k], tag, depth, before);
    }
    forall k | k in Required(fields) ensures k in v.m {
      var i :| 0 <= i < |fields| && fields[i].default_.None? && fields[i].name !in Counts(fields)
        && fields[i].name == k;
      var at, before := FieldWritten(env, t, fields, 0, start, start, tag, depth, used, i);
      NoDefault(c, fields[i], start);
    }
  }

  lemma GivenItem(c: Catalog, f: Field, start: Members)
    requires f.name in start
    ensures ItemOf(c, f, start) == Good(start[f.name])
  {
  }

  lemma NoDefault(c: Catalog, f: Field, start: Members)
    requires f.default_.None? && ItemOf(c, f, start).Good?
    ensures f.name in start
  {
  }

  // ---- The condition is exact ----

  /** A number goes with its integer type, whatever message bears the name of the type; but
      the description is then that of the message. */
  lemma IntegerMisdescribed(env: Env, t: Type, n: int, tag: Option<J.Json>, depth: nat)
    requires IsInt(t) && t in env.catalog && env.catalog[t].Struct? && depth <= MAX_DEPTH
    requires InRange(n, Width(t), Signed(t))
    ensures Write(env, t, J.Num(n), tag, depth, 0).Good? && !Satisfies(Describe(env.catalog, t, depth), J.Num(n))
  {
    hide InRange, Write, Describe, WriteLeaf;
    OfLeaf(env, t, J.Num(n), [], tag, depth, 0);
    IntegerWritten(env.host, t, n);
    MessageDescribed(env.catalog, t, depth);
  }

  lemma IntegerWritten(h: Host, t: Type, n: int)
    requires IsInt(t) && InRange(n, Width(t), Signed(t))
    ensures WriteLeaf(h, t, J.Num(n), 0).Good?
  {
    hide WriteInt, InRange;
    IntegerWidth(t, n);
    assert WriteFixed(h, t, J.Num(n)) == Good(WriteInt(n, Width(t), Signed(t)));
  }

  lemma MessageDescribed(c: Catalog, t: Type, depth: nat)
    requires IsInt(t) && t in c && c[t].Struct? && depth <= MAX_DEPTH
    ensures Describe(c, t, depth).Record?
  {
    hide Properties, Required;
  }

  lemma IntegerWidth(t: Type, n: int)
    requires IsInt(t) && InRange(n, Width(t), Signed(t))
    ensures |WriteInt(n, Width(t), Signed(t))| == Width(t) <= 4
  {
  }

  lemma ZeroInRange(t: Type)
    requires IsInt(t)
    ensures InRange(0, Width(t), Signed(t))
  {
    Pow256Values();
  }

  ghost predicate AllDescribed(env: Env) {
    forall t, v :: Encode(env, t, v).Good? ==> Satisfies(Describe(env.catalog, t, 0), v)
  }

  /** Definitions other than messages have names of their own. */
  ghost predicate OnlyMessages(c: Catalog) { forall t :: t in c && IsInt(t) ==> c[t].Struct? }

  /** Everything the encoder accepts satisfies its description exactly if no message bears
      the name of an integer type. */
  lemma DescriptionExactly(env: Env)
    requires Serves(env) && NumbersOnly(env.host) && OnlyMessages(env.catalog)
    ensures AllDescribed(env) <==> forall t :: t in env.catalog ==> !IsInt(t)
  {
    hide Serves, NumbersOnly, IsInt, Write, Satisfies, Describe;
    if forall t :: t in env.catalog ==> !IsInt(t) {
      forall t, v | Encode(env, t, v).Good? ensures Satisfies(Describe(env.catalog, t, 0), v) {
        DescriptionIsSound(env, t, v, None, 0, 0);
      }
    } else {
      var t :| t in env.catalog && IsInt(t);
      ZeroInRange(t);
      IntegerMisdescribed(env, t, 0, None, 0);
      assert Encode(env, t, J.Num(0)).Good?;
    }
  }
}
