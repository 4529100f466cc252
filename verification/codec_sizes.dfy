/** How many bytes are written: never more than 1 MiB, and for a type of fixed size exactly
    that size. */
module CodecSizes {
  import opened Text
  import opened Catalogs
  import opened Leaves
  import opened Codec
  import J = JsonText

  // ---- The payload limit ----

  /** No payload grows beyond 1 MiB, whatever is written. */
  lemma {:induction false} WriteFits(env: Env, t: Type, v: J.Json, tag: Option<J.Json>, depth: nat, used: nat)
    requires depth <= MAX_DEPTH + 1 && used <= PAYLOAD_BYTES && Write(env, t, v, tag, depth, used).Good?
    ensures used + |Write(env, t, v, tag, depth, used).value| <= PAYLOAD_BYTES
    decreases MAX_DEPTH + 1 - depth, 4, 0
  {
    hide WriteItems, WriteFields, WriteUnion, WriteLeaf, Numeric, Lifted, Prepared, FixedSize, Variable, IsLeaf;
    if IsLeaf(t) {
      LeafFits(env.host, t, v, used);
    } else {
      match env.catalog[t]
      case Alias(base, None) => WriteFits(env, base, v, tag, depth + 1, used);
      case Alias(base, Some(n)) => ItemsFit(env, base, v.items, depth + 1, used);
      case Enumeration(base, values, flags) =>
        WriteFits(env, base, Numeric(base, values, flags, v).value, None, depth + 1, used);
      case Union(fields) => UnionFits(env, t, fields, Lifted(t, v).value, tag, depth, used);
      case Struct(fields) =>
        FieldsFit(env, t, fields, 0, Prepared(fields, Lifted(t, v).value.m).value, tag, depth, used);
    }
  }

  lemma LeafFits(h: Host, t: Type, v: J.Json, used: nat)
    requires IsLeaf(t) && WriteLeaf(h, t, v, used).Good?
    ensures used + |WriteLeaf(h, t, v, used).value| <= PAYLOAD_BYTES
  {
    hide WriteText, WriteFixed, IsLeaf;
  }

  lemma UnionFits(env: Env, t: Type, fields: seq<Field>, v: J.Json, tag: Option<J.Json>, depth: nat, used: nat)
    requires depth <= MAX_DEPTH && WriteUnion(env, t, fields, v, tag, depth, used).Good?
    ensures used + |WriteUnion(env, t, fields, v, tag, depth, used).value| <= PAYLOAD_BYTES
  {
    hide Write, FixedSize, Variable, MemberNamed;
  }

  lemma {:induction false} ItemsFit(env: Env, t: Type, items: seq<J.Json>, depth: nat, used: nat)
    requires depth <= MAX_DEPTH + 1 && used <= PAYLOAD_BYTES && WriteItems(env, t, items, depth, used).Good?
    ensures used + |WriteItems(env, t, items, depth, used).value| <= PAYLOAD_BYTES
    decreases MAX_DEPTH + 1 - depth, 6, |items|
  {
    hide Write;
    if items != [] {
      WriteFits(env, t, items[0], None, depth, used);
      ItemsFit(env, t, items[1..], depth, used + |Write(env, t, items[0], None, depth, used).value|);
    }
  }

  lemma {:induction false} FieldsFit(env: Env, t: Type, fields: seq<Field>, i: nat, members: Members,
                                     tag: Option<J.Json>, depth: nat, used: nat)
    requires i <= |fields| && depth <= MAX_DEPTH && used <= PAYLOAD_BYTES
    requires WriteFields(env, t, fields, i, members, tag, depth, used).Good?
    ensures used + |WriteFields(env, t, fields, i, members, tag, depth, used).value| <= PAYLOAD_BYTES
    decreases MAX_DEPTH + 1 - depth, 3, |fields| - i
  {
    hide WriteField, ItemOf;
    if i < |fields| {
      var item := ItemOf(env.catalog, fields[i], members).value;
      var more := members[fields[i].name := item];
      FieldFits(env, t, fields[i], more, item, tag, depth, used);
      FieldsFit(env, t, fields, i + 1, more, tag, depth,
                used + |WriteField(env, t, fields[i], more, item, tag, depth, used).value|);
    }
  }

  lemma {:induction false} FieldFits(env: Env, t: Type, f: Field, members: Members, item: J.Json, tag: Option<J.Json>,
                                     depth: nat, used: nat)
    requires depth <= MAX_DEPTH && used <= PAYLOAD_BYTES && WriteField(env, t, f, members, item, tag, depth, used).Good?
    ensures used + |WriteField(env, t, f, members, item, tag, depth, used).value| <= PAYLOAD_BYTES
    decreases MAX_DEPTH + 1 - depth, 2, 0
  {
    hide Write, WriteItems, ArrayCount, Chosen;
    if FixedText(f) {
    } else if IsArray(f) {
      ItemsFit(env, f.type_, item.items, depth + 1, used);
    } else {
      WriteFits(env, f.type_, item, Chosen(t, f, members, tag).value, depth + 1, used);
    }
  }

  lemma EncodeFits(env: Env, t: Type, v: J.Json)
    requires Encode(env, t, v).Good?
    ensures |Encode(env, t, v).value| <= PAYLOAD_BYTES
  {
    WriteFits(env, t, v, None, 0, 0);
  }

  // ---- Fixed sizes are exact ----

  predicate IsUnsigned(t: Type) { t == U8 || t == U16 || t == U32 || t == U64 }

  /** Types converted by themselves take the room their aliases declare. */
  ghost predicate NativeSizes(c: Catalog) {
    forall t :: t in {Interface, Ip4, Ip6, Mac} && FixedSize(c, t, 0) >= 0 ==> FixedSize(c, t, 0) == NativeSize(t)
  }

  /** Enumerators are unsigned; a counted array has no length of its own. */
  ghost predicate WellSized(c: Catalog) {
    && NativeSizes(c)
    && forall t :: t in c ==> SizedDefinition(c[t])
  }

  predicate SizedDefinition(d: Definition) {
    match d
    case Alias(_, _) => true
    case Enumeration(base, _, _) => IsUnsigned(base)
    case Struct(fields) => forall i :: 0 <= i < |fields| && fields[i].count.Some? ==> fields[i].length == Some(0)
    case Union(fields) => true
  }

  /** A type whose values all have this many bytes, at this depth of another one. */
  ghost predicate HasSize(c: Catalog, t: Type, d: nat) { FixedSize(c, t, d) >= 0 && !Variable(c, t, d) }

  lemma TextVaries(c: Catalog, d: nat)
    ensures Variable(c, Characters, d)
  {
  }

  lemma LeafSize(env: Env, t: Type, v: J.Json, used: nat, d: nat)
    requires Consistent(env.host) && WellSized(env.catalog) && IsLeaf(t) && HasSize(env.catalog, t, d)
    requires WriteLeaf(env.host, t, v, used).Good?
    ensures |WriteLeaf(env.host, t, v, used).value| == FixedSize(env.catalog, t, d)
  {
    hide WriteFixed, ReadFixed, CanonFixed, WriteText, Consistent, SizedDefinition, DefinedSize, Variable;
    TextVaries(env.catalog, d);
    FixedRoundTrip(env.host, t, v);
    if Width(t) == 0 {
      SizeAnywhere(env.catalog, t, d, 0);
    }
  }

  lemma NoWidth(t: Type)
    requires !IsLeaf(t)
    ensures Width(t) == 0
  {
  }

  lemma AliasSize(c: Catalog, t: Type, d: nat)
    requires Width(t) == 0 && t in c && c[t].Alias? && HasSize(c, t, d)
    ensures HasSize(c, c[t].base, d + 1) && FixedSize(c, t, d) == Times(FixedSize(c, c[t].base, d + 1), c[t].length)
  {
    hide Width, Times, FieldSizes, VariableField;
    assert FixedSize(c, t, d) == DefinedSize(c, c[t], d);
    assert Variable(c, t, d) <==> Variable(c, c[t].base, d + 1);
  }

  lemma EnumerationSize(c: Catalog, t: Type, d: nat)
    requires Width(t) == 0 && t in c && c[t].Enumeration? && IsUnsigned(c[t].base) && HasSize(c, t, d)
    ensures FixedSize(c, t, d) == Width(c[t].base)
  {
    hide Times, FieldSizes, VariableField, Variable;
    assert FixedSize(c, t, d) == DefinedSize(c, c[t], d) == FixedSize(c, c[t].base, d + 1);
    assert FixedSize(c, c[t].base, d + 1) == Width(c[t].base);
  }

  lemma StructSize(c: Catalog, t: Type, d: nat)
    requires Width(t) == 0 && t in c && c[t].Struct? && HasSize(c, t, d)
    ensures var fields := c[t].fields;
            && d <= MAX_DEPTH && FixedSize(c, t, d) == FieldSizes(c, fields, |fields|, false, d)
            && forall j :: 0 <= j < |fields| ==> !VariableField(c, fields[j], d)
  {
    hide FieldSizes, VariableField, Width;
    assert FixedSize(c, t, d) == DefinedSize(c, c[t], d);
  }

  lemma UnsignedSize(env: Env, t: Type, v: J.Json, tag: Option<J.Json>, depth: nat, used: nat)
    requires Consistent(env.host) && IsUnsigned(t)
    requires depth <= MAX_DEPTH + 1 && Write(env, t, v, tag, depth, used).Good?
    ensures |Write(env, t, v, tag, depth, used).value| == Width(t)
  {
    hide WriteFixed, ReadFixed, CanonFixed, Consistent;
    FixedRoundTrip(env.host, t, v);
  }

  /** The exact number of bytes: the static size. */
  lemma {:induction false} SizeIsExact(env: Env, t: Type, v: J.Json, tag: Option<J.Json>, depth: nat, used: nat, d: nat)
    requires Consistent(env.host) && WellSized(env.catalog) && HasSize(env.catalog, t, d)
    requires depth <= MAX_DEPTH + 1 && Write(env, t, v, tag, depth, used).Good?
    ensures |Write(env, t, v, tag, depth, used).value| == FixedSize(env.catalog, t, d)
    decreases MAX_DEPTH + 1 - depth, 4, 0
  {
    hide WriteItems, WriteFields, WriteUnion, WriteLeaf, Numeric, Lifted, Prepared, Consistent, NativeSizes, FieldSizes,
         VariableField;
    hide FixedSize, Variable, IsLeaf;
    var c := env.catalog;
    if IsLeaf(t) {
      LeafSize(env, t, v, used, d);
    } else {
      NoWidth(t);
      assert SizedDefinition(c[t]);
      match c[t]
      case Alias(base, None) =>
        AliasSize(c, t, d);
        SizeIsExact(env, base, v, tag, depth + 1, used, d + 1);
      case Alias(base, Some(n)) =>
        AliasSize(c, t, d);
        ItemsExact(env, base, v.items, depth + 1, used, d + 1);
      case Enumeration(base, values, flags) =>
        EnumerationSize(c, t, d);
        UnsignedSize(env, base, Numeric(base, values, flags, v).value, None, depth + 1, used);
      case Union(fields) =>
        SizeAnywhere(c, t, d, 0);
        UnionExact(env, t, fields, Lifted(t, v).value, tag, depth, used);
      case Struct(fields) =>
        StructSize(c, t, d);
        FieldsExact(env, t, fields, 0, Prepared(fields, Lifted(t, v).value.m).value, tag, depth, used, d);
        NoFields(c, fields, d);
    }
  }

  lemma NoFields(c: Catalog, fields: seq<Field>, d: nat)
    requires d <= MAX_DEPTH
    ensures FieldSizes(c, fields, 0, false, d) == 0
  {
  }

  lemma UnionExact(env: Env, t: Type, fields: seq<Field>, v: J.Json, tag: Option<J.Json>, depth: nat, used: nat)
    requires depth <= MAX_DEPTH && WriteUnion(env, t, fields, v, tag, depth, used).Good?
    ensures |WriteUnion(env, t, fields, v, tag, depth, used).value| == FixedSize(env.catalog, t, 0)
  {
    hide Write, FixedSize, Variable, MemberNamed;
  }

  lemma {:induction false} ItemsExact(env: Env, t: Type, items: seq<J.Json>, depth: nat, used: nat, d: nat)
    requires Consistent(env.host) && WellSized(env.catalog) && HasSize(env.catalog, t, d)
    requires depth <= MAX_DEPTH + 1 && WriteItems(env, t, items, depth, used).Good?
    ensures |WriteItems(env, t, items, depth, used).value| == FixedSize(env.catalog, t, d) * |items|
    decreases MAX_DEPTH + 1 - depth, 6, |items|
  {
    hide Write, Consistent, WellSized, FixedSize, Variable;
    if items != [] {
      SizeIsExact(env, t, items[0], None, depth, used, d);
      ItemsExact(env, t, items[1..], depth, used + |Write(env, t, items[0], None, depth, used).value|, d);
      Distribute(FixedSize(env.catalog, t, d), |items|);
    }
  }

  lemma Distribute(a: int, n: int)
    ensures a * n == a + a * (n - 1)
  {
  }

  /** What is known of all fields is known of the first ones. */
  lemma {:induction false} PrefixKnown(c: Catalog, fields: seq<Field>, i: nat, n: nat, d: nat)
    requires i <= n <= |fields| && d <= MAX_DEPTH && FieldSizes(c, fields, n, false, d) >= 0
    ensures FieldSizes(c, fields, i, false, d) >= 0
    decreases n
  {
    if i < n {
      PrefixKnown(c, fields, i, n - 1, d);
    }
  }

  lemma {:induction false} FieldsExact(env: Env, t: Type, fields: seq<Field>, i: nat, members: Members,
                                       tag: Option<J.Json>, depth: nat, used: nat, d: nat)
    requires Consistent(env.host) && WellSized(env.catalog) && SizedDefinition(Struct(fields))
    requires d <= MAX_DEPTH && FieldSizes(env.catalog, fields, |fields|, false, d) >= 0
    requires forall j :: 0 <= j < |fields| ==> !VariableField(env.catalog, fields[j], d)
    requires i <= |fields| && depth <= MAX_DEPTH && WriteFields(env, t, fields, i, members, tag, depth, used).Good?
    ensures |WriteFields(env, t, fields, i, members, tag, depth, used).value|
         == FieldSizes(env.catalog, fields, |fields|, false, d) - FieldSizes(env.catalog, fields, i, false, d)
    decreases MAX_DEPTH + 1 - depth, 3, |fields| - i
  {
    hide WriteField, ItemOf, Consistent, WellSized, VariableField, FieldSize;
    if i < |fields| {
      var f, c := fields[i], env.catalog;
      var item := ItemOf(c, f, members).value;
      var more := members[f.name := item];
      PrefixKnown(c, fields, i + 1, |fields|, d);
      FieldExact(env, t, f, more, item, tag, depth, used, d);
      FieldsExact(env, t, fields, i + 1, more, tag, depth,
                  used + |WriteField(env, t, f, more, item, tag, depth, used).value|, d);
    }
  }

  lemma {:induction false} FieldExact(env: Env, t: Type, f: Field, members: Members, item: J.Json, tag: Option<J.Json>,
                                      depth: nat, used: nat, d: nat)
    requires Consistent(env.host) && WellSized(env.catalog) && (f.count.Some? ==> f.length == Some(0))
    requires d <= MAX_DEPTH && !VariableField(env.catalog, f, d) && FieldSize(env.catalog, f, d) >= 0
    requires depth <= MAX_DEPTH && WriteField(env, t, f, members, item, tag, depth, used).Good?
    ensures |WriteField(env, t, f, members, item, tag, depth, used).value| == FieldSize(env.catalog, f, d)
    decreases MAX_DEPTH + 1 - depth, 2, 0
  {
    hide Write, WriteItems, Chosen, Consistent, WellSized, FixedSize;
    var c := env.catalog;
    if FixedText(f) {
    } else if IsArray(f) {
      if FixedSize(c, f.type_, d + 1) < 0 {
        NoElements(FixedSize(c, f.type_, d + 1), 0, f.length);
      }
      ItemsExact(env, f.type_, item.items, depth + 1, used, d + 1);
    } else {
      SizeIsExact(env, f.type_, item, Chosen(t, f, members, tag).value, depth + 1, used, d + 1);
    }
  }
}
