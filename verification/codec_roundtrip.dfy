/** Decoding what was encoded gives the canonical value, which encodes to the same bytes. */
module CodecRoundTrip {
  import opened Text
  import opened Catalogs
  import opened Leaves
  import opened Codec
  import opened SymbolTables
  import opened CodecSizes
  import opened Canonical
  import opened RoundTrips
  import J = JsonText

  ghost predicate Serves(env: Env) { Consistent(env.host) && GoodCatalog(env.catalog) }

  /** What becomes of a canonical form: it is written as these bytes, or refused. */
  predicate Rewritten(w: Coded<Text>, settled: bool, b: Text) { if settled then w == Good(b) else w.Bad? }

  lemma SymbolsAreGood(env: Env, t: Type)
    requires Serves(env) && t in env.catalog && env.catalog[t].Enumeration?
    ensures GoodSymbols(env.catalog[t].base, env.catalog[t].values, env.catalog[t].flags)
  {
    hide Consistent, NativeSizes, GoodSymbols;
    assert GoodDefinition(env.catalog, t, env.catalog[t]);
  }

  lemma MembersAreGood(env: Env, t: Type)
    requires Serves(env) && t in env.catalog && env.catalog[t].Union?
    ensures GoodMembers(env.catalog, env.catalog[t].fields) && t != Address && !IsPrefix(t)
    ensures t == AddressUnion ==> GoodFamilies(env.catalog[t].fields)
  {
    hide Consistent, NativeSizes, GoodMembers;
    assert GoodDefinition(env.catalog, t, env.catalog[t]);
  }

  lemma FieldsAreGood(env: Env, t: Type)
    requires Serves(env) && t in env.catalog && env.catalog[t].Struct?
    ensures GoodFields(env.catalog, t, env.catalog[t].fields)
    ensures (t == Address || IsPrefix(t) ==> GoodText(t, env.catalog[t].fields))
  {
    hide Consistent, NativeSizes, GoodFields, GoodText;
    assert GoodDefinition(env.catalog, t, env.catalog[t]);
  }

  lemma BaseIsGood(env: Env, t: Type)
    requires Serves(env) && t in env.catalog && env.catalog[t].Alias? && env.catalog[t].length.Some?
    ensures !Tagged(env.catalog, env.catalog[t].base)
  {
    hide Consistent, NativeSizes, Tagged;
    assert GoodDefinition(env.catalog, t, env.catalog[t]);
  }

  // ---- Leaves ----

  lemma LeafRoundTrip(env: Env, t: Type, v: J.Json, depth: nat, used: nat, rest: Text)
    requires Serves(env) && depth <= MAX_DEPTH && IsLeaf(t) && WriteLeaf(env.host, t, v, used).Good?
    ensures var b := WriteLeaf(env.host, t, v, used).value;
            && ReadLeaf(env.host, t, b + rest) == Good((Canon(env, t, v, depth), rest))
            && WriteLeaf(env.host, t, Canon(env, t, v, depth), used) == Good(b)
  {
    hide WriteFixed, ReadFixed, CanonFixed, WriteText, ReadText, Consistent, GoodCatalog, IsFixed, Kept, NativeSize;
    if t == Characters {
      TextRoundTrip(v, rest);
      TextIsStr(v);
    } else {
      FixedRoundTrip(env.host, t, v);
      var b := WriteFixed(env.host, t, v).value;
      assert (b + rest)[..|b|] == b && (b + rest)[|b|..] == rest;
    }
  }

  lemma TextIsStr(v: J.Json)
    requires WriteText(v).Good?
    ensures v.Str?
  {
  }

  lemma OfLeaf(env: Env, t: Type, v: J.Json, b: Text, tag: Option<J.Json>, depth: nat, used: nat)
    requires IsLeaf(t) && depth <= MAX_DEPTH
    ensures Write(env, t, v, tag, depth, used) == WriteLeaf(env.host, t, v, used)
    ensures Read(env, t, b, tag, depth) == ReadLeaf(env.host, t, b)
  {
    hide IsLeaf, WriteLeaf, ReadLeaf;
  }

  lemma OfEnumeration(env: Env, t: Type, base: Type, values: map<Text, int>, flags: bool, v: J.Json,
                      tag: Option<J.Json>, depth: nat, used: nat)
    requires !IsLeaf(t) && t in env.catalog && env.catalog[t] == Enumeration(base, values, flags) && depth <= MAX_DEPTH
    ensures Canon(env, t, v, depth) == CanonSymbols(values, flags, v)
    ensures var numeric := Numeric(base, values, flags, v);
            if numeric.Bad? then Write(env, t, v, tag, depth, used).Bad?
            else Write(env, t, v, tag, depth, used) == Write(env, base, numeric.value, None, depth + 1, used)
  {
    hide IsLeaf, CanonSymbols, Numeric, WriteItems, WriteUnion, WriteFields, CanonItems, CanonUnion, Whole, Lifted,
         Prepared;
    assert Write(env, t, v, tag, depth, used) == WriteDefined(env, t, env.catalog[t], v, tag, depth, used);
    assert Canon(env, t, v, depth) == CanonDefined(env, t, env.catalog[t], v, depth);
  }

  lemma ReadOfEnumeration(env: Env, t: Type, base: Type, values: map<Text, int>, flags: bool, b: Text,
                          tag: Option<J.Json>, depth: nat)
    requires !IsLeaf(t) && t in env.catalog && env.catalog[t] == Enumeration(base, values, flags) && depth <= MAX_DEPTH
    requires Read(env, base, b, None, depth + 1).Good?
    ensures var (number, rest) := Read(env, base, b, None, depth + 1).value;
            Read(env, t, b, tag, depth) == Paired(Symbolic(values, flags, number), rest)
  {
    hide IsLeaf, Symbolic;
    assert Read(env, t, b, tag, depth) == ReadDefined(env, t, env.catalog[t], b, tag, depth);
  }

  lemma TooDeep(env: Env, t: Type, v: J.Json, tag: Option<J.Json>, used: nat)
    ensures Write(env, t, v, tag, MAX_DEPTH + 1, used).Bad?
  {
  }

  lemma EnumerationRoundTrip(env: Env, t: Type, v: J.Json, tag: Option<J.Json>, depth: nat, used: nat, rest: Text)
    requires Serves(env) && depth <= MAX_DEPTH && !IsLeaf(t) && t in env.catalog && env.catalog[t].Enumeration?
    requires Write(env, t, v, tag, depth, used).Good?
    ensures var b := Write(env, t, v, tag, depth, used).value;
            && Read(env, t, b + rest, tag, depth) == Good((Canon(env, t, v, depth), rest))
            && Settled(env, t, v, depth) && Write(env, t, Canon(env, t, v, depth), tag, depth, used) == Good(b)
  {
    hide Write, Read, Canon, Settled, WriteLeaf, ReadLeaf, CanonFixed, Consistent, Numeric, Symbolic, CanonSymbols,
         GoodSymbols, Serves, IsLeaf, IsFixed, IsUnsigned, WriteFixed;
    SymbolsAreGood(env, t);
    var Enumeration(base, values, flags) := env.catalog[t];
    var b := Write(env, t, v, tag, depth, used).value;
    var canonical := Canon(env, t, v, depth);
    SymbolsUnsigned(base, values, flags);
    UnsignedIsLeaf(base);
    LeafIsSettled(env, t, v, depth);
    OfEnumeration(env, t, base, values, flags, v, tag, depth, used);
    OfEnumeration(env, t, base, values, flags, canonical, tag, depth, used);
    var numeric := Numeric(base, values, flags, v).value;
    UnsignedIsLeaf(base);
    NumberWritten(env, base, numeric, depth + 1, used);
    SymbolsRoundTrip(env.host, base, values, flags, v);
    NumberRead(env, base, numeric, depth + 1, used, rest);
    ReadOfEnumeration(env, t, base, values, flags, b + rest, tag, depth);
  }

  lemma NumberWritten(env: Env, t: Type, numeric: J.Json, depth: nat, used: nat)
    requires IsUnsigned(t) && IsFixed(t) && depth <= MAX_DEPTH + 1 && Write(env, t, numeric, None, depth, used).Good?
    ensures depth <= MAX_DEPTH && WriteFixed(env.host, t, numeric).Good?
  {
    hide WriteFixed, IsFixed;
    TooDeep(env, t, numeric, None, used);
    OfLeaf(env, t, numeric, [], None, depth, used);
  }

  lemma NumberRead(env: Env, t: Type, numeric: J.Json, depth: nat, used: nat, rest: Text)
    requires Serves(env) && IsUnsigned(t) && IsFixed(t) && depth <= MAX_DEPTH
    requires Write(env, t, numeric, None, depth, used).Good?
    requires CanonFixed(env.host, t, numeric) == numeric
    ensures Read(env, t, Write(env, t, numeric, None, depth, used).value + rest, None, depth) == Good((numeric, rest))
  {
    hide Serves, Write, Read, Canon, WriteLeaf, ReadLeaf, CanonFixed, IsLeaf, IsFixed;
    UnsignedIsLeaf(t);
    OfLeaf(env, t, numeric, Write(env, t, numeric, None, depth, used).value + rest, None, depth, used);
    LeafRoundTrip(env, t, numeric, depth, used, rest);
    CanonOfLeaf(env, t, numeric, depth);
  }

  lemma UnsignedIsLeaf(t: Type)
    requires IsUnsigned(t)
    ensures IsFixed(t) && IsLeaf(t) && t != Characters
  {
  }

  lemma CanonOfLeaf(env: Env, t: Type, v: J.Json, depth: nat)
    requires IsLeaf(t) && IsFixed(t) && t != Characters && depth <= MAX_DEPTH
    ensures Canon(env, t, v, depth) == CanonFixed(env.host, t, v)
  {
    hide IsLeaf, IsFixed, CanonFixed;
  }

  // ---- Everything ----

  lemma OfAlias(env: Env, t: Type, v: J.Json, b: Text, tag: Option<J.Json>, depth: nat, used: nat)
    requires !IsLeaf(t) && t in env.catalog && env.catalog[t].Alias? && env.catalog[t].length.None?
    requires depth <= MAX_DEPTH
    ensures var base := env.catalog[t].base;
            && Write(env, t, v, tag, depth, used) == Write(env, base, v, tag, depth + 1, used)
            && Read(env, t, b, tag, depth) == Read(env, base, b, tag, depth + 1)
            && Canon(env, t, v, depth) == Canon(env, base, v, depth + 1)
            && Settled(env, t, v, depth) == Settled(env, base, v, depth + 1)
  {
    hide IsLeaf, WriteItems, ReadItems, CanonItems, WriteUnion, ReadUnion, CanonUnion, CanonSymbols, Numeric, Symbolic,
         SettledItems, SettledUnion, SettledFields, FitsFamily;
  }

  lemma OfArray(env: Env, t: Type, v: J.Json, b: Text, tag: Option<J.Json>, depth: nat, used: nat)
    requires !IsLeaf(t) && t in env.catalog && env.catalog[t].Alias? && env.catalog[t].length.Some?
    requires depth <= MAX_DEPTH
    ensures var Alias(base, Some(n)) := env.catalog[t];
            && Write(env, t, v, tag, depth, used)
               == (if !v.Arr? || |v.items| != n then Bad(InvalidParams)
                   else WriteItems(env, base, v.items, depth + 1, used))
            && Read(env, t, b, tag, depth)
               == (match ReadItems(env, base, n, b, depth + 1)
                   case Bad(why) => Bad(why)
                   case Good((items, rest)) => Good((J.Arr(items), rest)))
            && Canon(env, t, v, depth) == (if v.Arr? then J.Arr(CanonItems(env, base, v.items, depth + 1)) else v)
            && Settled(env, t, v, depth) == (v.Arr? ==> SettledItems(env, base, v.items, depth + 1))
  {
    hide IsLeaf, WriteItems, ReadItems, CanonItems, WriteUnion, ReadUnion, CanonUnion, CanonSymbols, Numeric, Symbolic,
         SettledItems, SettledUnion, SettledFields, FitsFamily;
  }

  lemma OfUnion(env: Env, t: Type, v: J.Json, b: Text, tag: Option<J.Json>, depth: nat, used: nat)
    requires !IsLeaf(t) && t in env.catalog && env.catalog[t].Union? && depth <= MAX_DEPTH && t != Address
    requires !IsPrefix(t)
    ensures var fields := env.catalog[t].fields;
            && Write(env, t, v, tag, depth, used) == WriteUnion(env, t, fields, v, tag, depth, used)
            && Read(env, t, b, tag, depth) == ReadUnion(env, t, fields, b, tag, depth)
            && Canon(env, t, v, depth) == CanonUnion(env, fields, v, depth)
            && Settled(env, t, v, depth) == SettledUnion(env, fields, v, depth)
  {
    hide IsLeaf, WriteItems, ReadItems, CanonItems, WriteUnion, ReadUnion, CanonUnion, CanonSymbols, Numeric, Symbolic,
         SettledItems, SettledUnion, SettledFields, FitsFamily;
  }

  /** What is written is read back as its canonical form, and nothing of what follows is
      touched. If the value is settled its canonical form is written as the same bytes;
      otherwise it is refused. */
  lemma {:induction false} RoundTrip(env: Env, t: Type, v: J.Json, tag: Option<J.Json>, depth: nat, used: nat,
                                     rest: Text)
    requires Serves(env) && depth <= MAX_DEPTH + 1
    requires (TaggedWithin(env.catalog, t, MAX_DEPTH + 1 - depth) ==> tag.Some?)
    requires Write(env, t, v, tag, depth, used).Good?
    ensures var b := Write(env, t, v, tag, depth, used).value;
            && Read(env, t, b + rest, tag, depth) == Good((Canon(env, t, v, depth), rest))
            && (Telling(env.host) ==>
                  Rewritten(Write(env, t, Canon(env, t, v, depth), tag, depth, used), Settled(env, t, v, depth), b))
    decreases MAX_DEPTH + 1 - depth, 4, 0
  {
    hide Serves, Telling, IsLeaf, Tagged, TaggedWithin, Write, Read, Canon, GoodFields, WriteLeaf, ReadLeaf, WriteItems,
         ReadItems, CanonItems, Settled, SettledItems, SettledUnion, WriteUnion, ReadUnion, CanonUnion, GoodMembers,
         IsPrefix, WriteFixed;
    TooDeep(env, t, v, tag, used);
    var b := Write(env, t, v, tag, depth, used).value;
    var canonical := Canon(env, t, v, depth);
    if IsLeaf(t) {
      OfLeaf(env, t, v, b + rest, tag, depth, used);
      OfLeaf(env, t, canonical, b + rest, tag, depth, used);
      LeafRoundTrip(env, t, v, depth, used, rest);
      LeafIsSettled(env, t, v, depth);
    } else {
      KnownType(env, t, v, tag, depth, used);
      match env.catalog[t]
      case Alias(base, None) =>
        OfAlias(env, t, v, b + rest, tag, depth, used);
        OfAlias(env, t, canonical, b + rest, tag, depth, used);
        TaggedThrough(env.catalog, t, depth);
        RoundTrip(env, base, v, tag, depth + 1, used, rest);
      case Alias(base, Some(n)) =>
        OfArray(env, t, v, b + rest, tag, depth, used);
        OfArray(env, t, canonical, b + rest, tag, depth, used);
        BaseIsGood(env, t);
        ItemsRoundTrip(env, base, v.items, depth + 1, used, rest);
      case Enumeration(_, _, _) => EnumerationRoundTrip(env, t, v, tag, depth, used, rest);
      case Union(fields) =>
        UnionIsTagged(env.catalog, t, depth);
        MembersAreGood(env, t);
        OfUnion(env, t, v, b + rest, tag, depth, used);
        OfUnion(env, t, canonical, b + rest, tag, depth, used);
        UnionRoundTrip(env, t, v, tag, depth, used, rest);
      case Struct(fields) =>
        FibIsTagged(env.catalog, t, depth);
        StructRoundTrip(env, t, v, tag, depth, used, rest);
    }
  }

  lemma LeafIsSettled(env: Env, t: Type, v: J.Json, depth: nat)
    requires depth <= MAX_DEPTH && (IsLeaf(t) || t !in env.catalog || env.catalog[t].Enumeration?)
    ensures Settled(env, t, v, depth)
  {
    hide IsLeaf;
  }

  lemma KnownType(env: Env, t: Type, v: J.Json, tag: Option<J.Json>, depth: nat, used: nat)
    requires !IsLeaf(t) && depth <= MAX_DEPTH && Write(env, t, v, tag, depth, used).Good?
    ensures t in env.catalog
  {
    hide IsLeaf, WriteLeaf;
  }

  lemma UnionIsTagged(c: Catalog, t: Type, depth: nat)
    requires depth <= MAX_DEPTH && !IsLeaf(t) && t in c && c[t].Union?
    ensures TaggedWithin(c, t, MAX_DEPTH + 1 - depth)
  {
    hide IsLeaf;
  }

  lemma FibIsTagged(c: Catalog, t: Type, depth: nat)
    requires depth <= MAX_DEPTH && !IsLeaf(t)
    ensures t == FibPathNh ==> TaggedWithin(c, t, MAX_DEPTH + 1 - depth)
  {
    hide IsLeaf;
  }

  /** An alias hands the discriminator on. */
  lemma TaggedThrough(c: Catalog, t: Type, depth: nat)
    requires depth <= MAX_DEPTH && !IsLeaf(t) && t in c && c[t].Alias? && c[t].length.None?
    ensures TaggedWithin(c, c[t].base, MAX_DEPTH - depth) ==> TaggedWithin(c, t, MAX_DEPTH + 1 - depth)
  {
    hide IsLeaf;
  }

  lemma NotTagged(c: Catalog, t: Type, n: nat)
    requires !Tagged(c, t) && n <= MAX_DEPTH + 1
    ensures !TaggedWithin(c, t, n)
  {
    hide TaggedWithin;
    if TaggedWithin(c, t, n) {
      TaggedFurther(c, t, n, MAX_DEPTH + 1);
    }
  }

  lemma OfItems(env: Env, t: Type, items: seq<J.Json>, depth: nat, used: nat)
    requires items != [] && depth <= MAX_DEPTH + 1
    ensures CanonItems(env, t, items, depth) == [Canon(env, t, items[0], depth)] + CanonItems(env, t, items[1..], depth)
    ensures SettledItems(env, t, items, depth)
        <==> Settled(env, t, items[0], depth) && SettledItems(env, t, items[1..], depth)
    ensures WriteItems(env, t, items, depth, used).Good? ==>
              && Write(env, t, items[0], None, depth, used).Good?
              && var b := Write(env, t, items[0], None, depth, used).value;
              && WriteItems(env, t, items[1..], depth, used + |b|).Good?
              && WriteItems(env, t, items, depth, used).value
                  == b + WriteItems(env, t, items[1..], depth, used + |b|).value
  {
    hide Write, Canon, WriteItems, Settled;
    OneItem(env, t, items, depth, used);
  }

  lemma ReadMoreItems(env: Env, t: Type, n: nat, b: Text, depth: nat)
    requires n > 0 && depth <= MAX_DEPTH + 1 && Read(env, t, b, None, depth).Good?
    requires ReadItems(env, t, n - 1, Read(env, t, b, None, depth).value.1, depth).Good?
    ensures var (item, rest) := Read(env, t, b, None, depth).value;
            var (items, last) := ReadItems(env, t, n - 1, rest, depth).value;
            ReadItems(env, t, n, b, depth) == Good(([item] + items, last))
  {
    hide Read;
  }

  lemma WriteMoreItems(env: Env, t: Type, item: J.Json, items: seq<J.Json>, depth: nat, used: nat)
    requires depth <= MAX_DEPTH + 1
    ensures var first := Write(env, t, item, None, depth, used);
            WriteItems(env, t, [item] + items, depth, used)
            == Then(first, (b: Text) => WriteItems(env, t, items, depth, used + |b|))
  {
    hide Write, WriteItems;
    OneItem(env, t, [item] + items, depth, used);
    assert ([item] + items)[1..] == items;
  }

  lemma NoItems(env: Env, t: Type, b: Text, depth: nat, used: nat)
    requires depth <= MAX_DEPTH + 1
    ensures CanonItems(env, t, [], depth) == [] && WriteItems(env, t, [], depth, used) == Good([])
    ensures SettledItems(env, t, [], depth)
    ensures ReadItems(env, t, 0, b, depth) == Good(([], b))
  {
  }

  lemma {:induction false} ItemsRoundTrip(env: Env, t: Type, items: seq<J.Json>, depth: nat, used: nat, rest: Text)
    requires Serves(env) && depth <= MAX_DEPTH + 1 && !Tagged(env.catalog, t)
    requires WriteItems(env, t, items, depth, used).Good?
    ensures var b := WriteItems(env, t, items, depth, used).value;
            && ReadItems(env, t, |items|, b + rest, depth) == Good((CanonItems(env, t, items, depth), rest))
            && (Telling(env.host) ==>
                  Rewritten(WriteItems(env, t, CanonItems(env, t, items, depth), depth, used),
                            SettledItems(env, t, items, depth), b))
    decreases MAX_DEPTH + 1 - depth, 6, |items|
  {
    hide Serves, Telling, Write, Read, Canon, Settled, Tagged, WriteItems, ReadItems, CanonItems, SettledItems;
    if items != [] {
      OfItems(env, t, items, depth, used);
      NotTagged(env.catalog, t, MAX_DEPTH + 1 - depth);
      var b := Write(env, t, items[0], None, depth, used).value;
      var more := WriteItems(env, t, items[1..], depth, used + |b|).value;
      RoundTrip(env, t, items[0], None, depth, used, more + rest);
      ItemsRoundTrip(env, t, items[1..], depth, used + |b|, rest);
      assert b + more + rest == b + (more + rest);
      ReadMoreItems(env, t, |items|, b + (more + rest), depth);
      WriteMoreItems(env, t, Canon(env, t, items[0], depth), CanonItems(env, t, items[1..], depth), depth, used);
    } else {
      NoItems(env, t, rest, depth, used);
      assert [] + rest == rest;
    }
  }

  // ---- Unions ----

  lemma {:induction false} MemberIsThere(fields: seq<Field>, name: Text)
    requires MemberNamed(fields, name).Some?
    ensures MemberNamed(fields, name).value in fields && MemberNamed(fields, name).value.name == name
    decreases |fields|
  {
    if fields[|fields| - 1].name != name {
      MemberIsThere(fields[..|fields| - 1], name);
    }
  }

  lemma {:induction false} MemberByCase(fields: seq<Field>, member: Field)
    requires member in fields && member.case_.Some?
    requires forall i, j :: 0 <= i < j < |fields| ==> fields[i].case_ != fields[j].case_
    ensures MemberFor(fields, member.case_) == Some(member)
    decreases |fields|
  {
    var last := fields[|fields| - 1];
    if last != member {
      var i :| 0 <= i < |fields| && fields[i] == member;
      assert fields[i].case_ != fields[|fields| - 1].case_;
      assert member in fields[..|fields| - 1] by { assert fields[..|fields| - 1][i] == member; }
      MemberByCase(fields[..|fields| - 1], member);
    }
  }

  /** A member is no longer than the union it is in. */
  lemma MemberFits(env: Env, t: Type, fields: seq<Field>, member: Field, v: J.Json, depth: nat)
    requires Serves(env) && !IsLeaf(t) && t in env.catalog && env.catalog[t] == Union(fields)
    requires member in fields && member.length.None? && depth <= MAX_DEPTH
    requires FixedSize(env.catalog, t, 0) >= 0 && !Variable(env.catalog, t, 0)
    requires Write(env, member.type_, v, None, depth + 1, 0).Good?
    ensures |Write(env, member.type_, v, None, depth + 1, 0).value| <= FixedSize(env.catalog, t, 0)
  {
    hide Write, FieldSizes, Consistent, GoodCatalog, WellSized, IsLeaf;
    var c := env.catalog;
    var i :| 0 <= i < |fields| && fields[i] == member;
    NoWidth(t);
    UnionParts(c, t, fields, i);
    GoodIsWellSized(c);
    SizeIsExact(env, member.type_, v, None, depth + 1, 0, 1);
  }

  lemma UnionParts(c: Catalog, t: Type, fields: seq<Field>, i: nat)
    requires Width(t) == 0 && t in c && c[t] == Union(fields) && i < |fields| && fields[i].length.None?
    requires FixedSize(c, t, 0) >= 0 && !Variable(c, t, 0)
    ensures HasSize(c, fields[i].type_, 1) && FixedSize(c, fields[i].type_, 1) <= FixedSize(c, t, 0)
  {
    hide FieldSizes, Width;
    assert FixedSize(c, t, 0) == DefinedSize(c, c[t], 0);
    PartSizes(c, fields, |fields|, true, 0, i);
    assert !VariableField(c, fields[i], 0);
    TextVaries(c, 1);
  }

  /** What a union that was written looks like. */
  lemma OfMember(env: Env, t: Type, fields: seq<Field>, v: J.Json, tag: Option<J.Json>, depth: nat, used: nat)
    requires depth <= MAX_DEPTH && WriteUnion(env, t, fields, v, tag, depth, used).Good?
    ensures FixedSize(env.catalog, t, 0) >= 0 && !Variable(env.catalog, t, 0) && v.Obj? && |v.m| == 1
    ensures var name := Sorted(v.m.Keys)[0];
            && MemberNamed(fields, name).Some?
            && var member := MemberNamed(fields, name).value;
            && (tag.Some? && member.case_.Some? ==> member.case_ == tag)
            && Write(env, member.type_, v.m[name], None, depth + 1, 0).Good?
            && var b := Resized(Write(env, member.type_, v.m[name], None, depth + 1, 0).value,
                                FixedSize(env.catalog, t, 0));
            && WriteUnion(env, t, fields, v, tag, depth, used) == Good(b) && used + |b| <= PAYLOAD_BYTES
            && CanonUnion(env, fields, v, depth) == J.Obj(map[name := Canon(env, member.type_, v.m[name], depth + 1)])
            && SettledUnion(env, fields, v, depth) == Settled(env, member.type_, v.m[name], depth + 1)
  {
    hide Write, Canon, Settled, FixedSize, Variable, MemberNamed;
  }

  lemma WriteMember(env: Env, t: Type, fields: seq<Field>, name: Text, v: J.Json, tag: Option<J.Json>, depth: nat,
                    used: nat)
    requires depth <= MAX_DEPTH && FixedSize(env.catalog, t, 0) >= 0 && !Variable(env.catalog, t, 0)
    requires MemberNamed(fields, name).Some?
    requires var member := MemberNamed(fields, name).value;
             tag.Some? && member.case_.Some? ==> member.case_ == tag
    ensures var inner := Write(env, MemberNamed(fields, name).value.type_, v, None, depth + 1, 0);
            WriteUnion(env, t, fields, J.Obj(map[name := v]), tag, depth, used)
            == if inner.Bad? then Bad(inner.why) else Fit(Resized(inner.value, FixedSize(env.catalog, t, 0)), used)
  {
    hide Write, FixedSize, Variable, MemberNamed;
    OneKey(name, v);
  }

  lemma ReadMember(env: Env, t: Type, fields: seq<Field>, member: Field, b: Text, tag: Option<J.Json>, depth: nat)
    requires depth <= MAX_DEPTH && 0 <= FixedSize(env.catalog, t, 0) <= |b| && !Variable(env.catalog, t, 0)
    requires MemberFor(fields, tag) == Some(member)
    requires Read(env, member.type_, b[..FixedSize(env.catalog, t, 0)], None, depth + 1).Good?
    ensures var size := FixedSize(env.catalog, t, 0);
            ReadUnion(env, t, fields, b, tag, depth)
            == Good((J.Obj(map[member.name := Read(env, member.type_, b[..size], None, depth + 1).value.0]), b[size..]))
  {
    hide Read, FixedSize, Variable, MemberFor;
  }

  lemma UnionRoundTrip(env: Env, t: Type, v: J.Json, tag: Option<J.Json>, depth: nat, used: nat, rest: Text)
    requires Serves(env) && depth <= MAX_DEPTH && tag.Some? && !IsLeaf(t) && t in env.catalog && env.catalog[t].Union?
    requires WriteUnion(env, t, env.catalog[t].fields, v, tag, depth, used).Good?
    ensures var fields := env.catalog[t].fields;
            var b := WriteUnion(env, t, fields, v, tag, depth, used).value;
            && ReadUnion(env, t, fields, b + rest, tag, depth) == Good((CanonUnion(env, fields, v, depth), rest))
            && (Telling(env.host) ==>
                  Rewritten(WriteUnion(env, t, fields, CanonUnion(env, fields, v, depth), tag, depth, used),
                            SettledUnion(env, fields, v, depth), b))
    decreases MAX_DEPTH + 1 - depth, 3, 0
  {
    hide Serves, Telling, Write, Read, Canon, Settled, SettledUnion, MemberNamed, MemberFor, FixedSize, Variable,
         IsLeaf, Tagged, WriteUnion, ReadUnion, CanonUnion;
    var fields := env.catalog[t].fields;
    MembersAreGood(env, t);
    OfMember(env, t, fields, v, tag, depth, used);
    var name := Sorted(v.m.Keys)[0];
    var member := MemberNamed(fields, name).value;
    var size := FixedSize(env.catalog, t, 0);
    MemberIsThere(fields, name);
    assert member.length.None? && member.case_.Some? && !Tagged(env.catalog, member.type_);
    MemberByCase(fields, member);
    var inner := Write(env, member.type_, v.m[name], None, depth + 1, 0).value;
    MemberFits(env, t, fields, member, v.m[name], depth);
    var zeros := Resized(inner, size)[|inner|..];
    var b := Resized(inner, size);
    assert b == inner + zeros;
    assert (b + rest)[..size] == inner + zeros && (b + rest)[size..] == rest;
    NotTagged(env.catalog, member.type_, MAX_DEPTH - depth);
    RoundTrip(env, member.type_, v.m[name], None, depth + 1, 0, zeros);
    ReadMember(env, t, fields, member, b + rest, tag, depth);
    WriteMember(env, t, fields, name, Canon(env, member.type_, v.m[name], depth + 1), tag, depth, used);
  }

  lemma OneKey(name: Text, v: J.Json)
    ensures var m := map[name := v]; |m| == 1 && Sorted(m.Keys)[0] == name
  {
    var m := map[name := v];
    assert m.Keys == {name};
    assert |m| == |m.Keys| == 1;
    assert Sorted(m.Keys)[0] in m.Keys;
  }

  // ---- Fields ----

  /** A field that must be chosen for is chosen for. */
  lemma ChoiceMade(env: Env, within: Type, fields: seq<Field>, i: nat, start: Members, members: Members, item: J.Json,
                   tag: Option<J.Json>)
    requires i < |fields| && Filled(env.catalog, fields, i, start, members) && GoodField(env.catalog, within, fields, i)
    requires Tagged(env.catalog, fields[i].type_) && (ChosenByTag(within, fields[i]) ==> tag.Some?)
    requires !FixedText(fields[i]) && !IsArray(fields[i])
    requires Chosen(within, fields[i], members[fields[i].name := item], tag).Good?
    ensures Chosen(within, fields[i], members[fields[i].name := item], tag).value.Some?
  {
    hide Ascii, Tagged, Steady, Discriminator, ItemOf, IsCounter;
    var f := fields[i];
    if !ChosenByTag(within, f) {
      var j: nat :| Earlier(fields, i, j, KeyOf(within, f).value) && Steady(env.catalog, fields[j]);
      assert fields[j].name in members;
    }
  }

  ghost predicate SameLookups(env: Env, t: Type, f: Field, members: Members, other: Members, tag: Option<J.Json>) {
    if IsArray(f) then ArrayCount(f, members) == ArrayCount(f, other)
    else if FixedText(f) then true
    else Chosen(t, f, members, tag) == Chosen(t, f, other, tag)
  }

  lemma OfField(env: Env, t: Type, f: Field, members: Members, item: J.Json, b: Text, tag: Option<J.Json>, depth: nat,
                used: nat)
    requires depth <= MAX_DEPTH && !FixedText(f) && !IsArray(f) && Chosen(t, f, members, tag).Good?
    ensures var chosen := Chosen(t, f, members, tag).value;
            && WriteField(env, t, f, members, item, tag, depth, used)
                == Write(env, f.type_, item, chosen, depth + 1, used)
            && ReadField(env, t, f, members, tag, b, depth) == Read(env, f.type_, b, chosen, depth + 1)
            && CanonField(env, f, item, depth) == Canon(env, f.type_, item, depth + 1)
            && SettledField(env, f, item, depth) == Settled(env, f.type_, item, depth + 1)
  {
    hide Write, Read, Canon, Settled, Chosen;
  }

  lemma OfArrayField(env: Env, t: Type, f: Field, members: Members, item: J.Json, tag: Option<J.Json>, depth: nat,
                     used: nat)
    requires depth <= MAX_DEPTH && IsArray(f)
    ensures var count := ArrayCount(f, members);
            if count.Good? && item.Arr? && |item.items| == count.value
            then WriteField(env, t, f, members, item, tag, depth, used)
                == WriteItems(env, f.type_, item.items, depth + 1, used)
                 && CanonField(env, f, item, depth) == J.Arr(CanonItems(env, f.type_, item.items, depth + 1))
                 && SettledField(env, f, item, depth) == SettledItems(env, f.type_, item.items, depth + 1)
            else WriteField(env, t, f, members, item, tag, depth, used).Bad?
  {
    hide WriteItems, CanonItems, SettledItems, ArrayCount;
  }

  lemma ReadArrayField(env: Env, t: Type, f: Field, members: Members, b: Text, tag: Option<J.Json>, depth: nat)
    requires depth <= MAX_DEPTH && IsArray(f) && ArrayCount(f, members).Good?
    requires ReadItems(env, f.type_, ArrayCount(f, members).value, b, depth + 1).Good?
    ensures var (items, rest) := ReadItems(env, f.type_, ArrayCount(f, members).value, b, depth + 1).value;
            ReadField(env, t, f, members, tag, b, depth) == Good((J.Arr(items), rest))
  {
    hide ReadItems, ArrayCount;
  }

  lemma TextFieldRoundTrip(env: Env, t: Type, f: Field, members: Members, seen: Members, again: Members, item: J.Json,
                           tag: Option<J.Json>, depth: nat, used: nat, rest: Text)
    requires depth <= MAX_DEPTH && FixedText(f) && WriteField(env, t, f, members, item, tag, depth, used).Good?
    ensures var b := WriteField(env, t, f, members, item, tag, depth, used).value;
            && ReadField(env, t, f, seen, tag, b + rest, depth) == Good((CanonField(env, f, item, depth), rest))
            && WriteField(env, t, f, again, CanonField(env, f, item, depth), tag, depth, used) == Good(b)
            && SettledField(env, f, item, depth)
  {
    hide Write, Read, Canon, WriteItems, ReadItems, CanonItems, Settled, SettledItems;
    FixedTextRoundTrip(item.s, f.length.value, rest);
  }

  lemma {:induction false} FieldRoundTrip(env: Env, t: Type, f: Field, members: Members, seen: Members, again: Members,
                                          item: J.Json,
                                          tag: Option<J.Json>, depth: nat, used: nat, rest: Text)
    requires Serves(env) && depth <= MAX_DEPTH && WriteField(env, t, f, members, item, tag, depth, used).Good?
    requires SameLookups(env, t, f, members, seen, tag) && SameLookups(env, t, f, members, again, tag)
    requires Tagged(env.catalog, f.type_) ==>
               !IsArray(f) && (Chosen(t, f, members, tag).Good? ==> Chosen(t, f, members, tag).value.Some?)
    ensures var b := WriteField(env, t, f, members, item, tag, depth, used).value;
            && ReadField(env, t, f, seen, tag, b + rest, depth) == Good((CanonField(env, f, item, depth), rest))
            && (Telling(env.host) ==>
                  Rewritten(WriteField(env, t, f, again, CanonField(env, f, item, depth), tag, depth, used),
                            SettledField(env, f, item, depth), b))
    decreases MAX_DEPTH + 1 - depth, 2, 0
  {
    hide Serves, Telling, Write, Read, Canon, WriteItems, ReadItems, CanonItems, Tagged, ArrayCount, Chosen, WriteField,
         ReadField, CanonField, Settled, SettledItems, SettledField;
    if FixedText(f) {
      TextFieldRoundTrip(env, t, f, members, seen, again, item, tag, depth, used, rest);
    } else if IsArray(f) {
      OfArrayField(env, t, f, members, item, tag, depth, used);
      ItemsRoundTrip(env, f.type_, item.items, depth + 1, used, rest);
      var b := WriteField(env, t, f, members, item, tag, depth, used).value;
      ReadArrayField(env, t, f, seen, b + rest, tag, depth);
      OfArrayField(env, t, f, again, CanonField(env, f, item, depth), tag, depth, used);
    } else {
      FieldIsChosen(env, t, f, members, item, tag, depth, used);
      if !Tagged(env.catalog, f.type_) {
        NotTagged(env.catalog, f.type_, MAX_DEPTH - depth);
      }
      RoundTrip(env, f.type_, item, Chosen(t, f, members, tag).value, depth + 1, used, rest);
      var b := WriteField(env, t, f, members, item, tag, depth, used).value;
      OfField(env, t, f, members, item, b + rest, tag, depth, used);
      OfField(env, t, f, seen, item, b + rest, tag, depth, used);
      OfField(env, t, f, again, CanonField(env, f, item, depth), b + rest, tag, depth, used);
    }
  }

  lemma FieldIsChosen(env: Env, t: Type, f: Field, members: Members, item: J.Json, tag: Option<J.Json>, depth: nat,
                      used: nat)
    requires depth <= MAX_DEPTH && !FixedText(f) && !IsArray(f)
    requires WriteField(env, t, f, members, item, tag, depth, used).Good?
    ensures Chosen(t, f, members, tag).Good?
    ensures Write(env, f.type_, item, Chosen(t, f, members, tag).value, depth + 1, used).Good?
  {
    hide Write, Chosen;
  }

  lemma FixedTextRoundTrip(s: Text, size: nat, rest: Text)
    requires |s| < size && 0 !in s
    ensures var b := Padded(s, size) + rest;
            b[..size] == Padded(s, size) && b[size..] == rest && UpToNul(b[..size]) == s
  {
    UpToNulPadded(s, size);
    var b := Padded(s, size) + rest;
    assert b[..size] == Padded(s, size);
  }

  lemma OfFields(env: Env, t: Type, fields: seq<Field>, i: nat, members: Members, item: J.Json, tag: Option<J.Json>,
                 depth: nat, used: nat)
    requires i < |fields| && depth <= MAX_DEPTH && ItemOf(env.catalog, fields[i], members) == Good(item)
    ensures WriteFields(env, t, fields, i, members, tag, depth, used).Good? ==>
              var more := members[fields[i].name := item];
              && WriteField(env, t, fields[i], more, item, tag, depth, used).Good?
              && var b := WriteField(env, t, fields[i], more, item, tag, depth, used).value;
              && WriteFields(env, t, fields, i + 1, more, tag, depth, used + |b|).Good?
              && WriteFields(env, t, fields, i, members, tag, depth, used).value
                 == b + WriteFields(env, t, fields, i + 1, more, tag, depth, used + |b|).value
  {
    hide ItemOf, WriteField, WriteFields;
    OneField(env, t, fields, i, members, tag, depth, used);
  }

  lemma ReadMoreFields(env: Env, t: Type, fields: seq<Field>, i: nat, members: Members, tag: Option<J.Json>, b: Text,
                       depth: nat)
    requires i < |fields| && depth <= MAX_DEPTH && ReadField(env, t, fields[i], members, tag, b, depth).Good?
    ensures var (item, rest) := ReadField(env, t, fields[i], members, tag, b, depth).value;
            ReadFields(env, t, fields, i, members, tag, b, depth)
            == ReadFields(env, t, fields, i + 1, members[fields[i].name := item], tag, rest, depth)
  {
    hide ReadField;
  }

  lemma WriteMoreFields(env: Env, t: Type, fields: seq<Field>, i: nat, members: Members, item: J.Json,
                        tag: Option<J.Json>, depth: nat, used: nat)
    requires i < |fields| && depth <= MAX_DEPTH && ItemOf(env.catalog, fields[i], members) == Good(item)
    requires members[fields[i].name := item] == members
    ensures var first := WriteField(env, t, fields[i], members, item, tag, depth, used);
            WriteFields(env, t, fields, i, members, tag, depth, used)
            == Then(first, (b: Text) => WriteFields(env, t, fields, i + 1, members, tag, depth, used + |b|))
  {
    hide ItemOf, WriteField, WriteFields;
    OneField(env, t, fields, i, members, tag, depth, used);
  }

  lemma SettledNext(env: Env, fields: seq<Field>, i: nat, start: Members, depth: nat)
    requires i < |fields| && depth <= MAX_DEPTH && ItemOf(env.catalog, fields[i], start).Good?
    ensures SettledFields(env, fields, i, start, depth)
        <==> SettledField(env, fields[i], ItemOf(env.catalog, fields[i], start).value, depth)
             && SettledFields(env, fields, i + 1, start, depth)
  {
    hide ItemOf, SettledField;
  }

  lemma SettledEnd(env: Env, fields: seq<Field>, start: Members, depth: nat)
    requires depth <= MAX_DEPTH
    ensures SettledFields(env, fields, |fields|, start, depth)
  {
  }

  lemma NoMoreFields(env: Env, t: Type, fields: seq<Field>, members: Members, tag: Option<J.Json>, b: Text, depth: nat,
                     used: nat)
    requires depth <= MAX_DEPTH
    ensures WriteFields(env, t, fields, |fields|, members, tag, depth, used) == Good([])
    ensures ReadFields(env, t, fields, |fields|, members, tag, b, depth) == Good((members, b))
  {
  }

  /** The field loop, from the `i`th field on: reading gives the whole canonical object, and
      writing that object gives the same bytes. */
  lemma {:induction false} FieldsRoundTrip(env: Env, t: Type, fields: seq<Field>, i: nat, start: Members,
                                           members: Members,
                                           tag: Option<J.Json>, depth: nat, used: nat, rest: Text)
    requires Serves(env) && depth <= MAX_DEPTH && i <= |fields| && GoodFields(env.catalog, t, fields)
    requires AllItems(env.catalog, fields, start)
    requires t == FibPathNh ==> tag.Some?
    requires Filled(env.catalog, fields, i, start, members)
    requires WriteFields(env, t, fields, i, members, tag, depth, used).Good?
    ensures var b := WriteFields(env, t, fields, i, members, tag, depth, used).value;
            var whole := Whole(env, fields, |fields|, start, depth);
            && ReadFields(env, t, fields, i, Whole(env, fields, i, start, depth), tag, b + rest, depth)
                == Good((whole, rest))
            && (Telling(env.host) ==>
                  Rewritten(WriteFields(env, t, fields, i, whole, tag, depth, used),
                            SettledFields(env, fields, i, start, depth), b))
    decreases MAX_DEPTH + 1 - depth, 3, |fields| - i
  {
    hide SettledField, SettledFields, Telling;
    hide Serves, WriteField, ReadField, WriteFields, ReadFields, CanonField, ItemOf, GoodFields, Filled, Agrees, Whole,
         Distinct, AllItems;
    var whole := Whole(env, fields, |fields|, start, depth);
    GoodIsDistinct(env.catalog, t, fields);
    if i == |fields| {
      NoMoreFields(env, t, fields, whole, tag, rest, depth, used);
      NoMoreFields(env, t, fields, members, tag, rest, depth, used);
      SettledEnd(env, fields, start, depth);
      assert [] + rest == rest;
    } else {
      var f := fields[i];
      ItemGiven(env.catalog, fields, start, i);
      FilledNext(env.catalog, fields, i, start, members);
      var item := ItemOf(env.catalog, f, start).value;
      var more := members[f.name := item];
      OfFields(env, t, fields, i, members, item, tag, depth, used);
      var before := Whole(env, fields, i, start, depth);
      var b := WriteField(env, t, f, more, item, tag, depth, used).value;
      var later := WriteFields(env, t, fields, i + 1, more, tag, depth, used + |b|).value;
      TurnRoundTrip(env, t, fields, i, start, members, tag, depth, used, later + rest);
      FieldsRoundTrip(env, t, fields, i + 1, start, more, tag, depth, used + |b|, rest);
      assert b + later + rest == b + (later + rest);
      HoldsItem(env, fields, i, start, depth);
      ReadMoreFields(env, t, fields, i, before, tag, b + (later + rest), depth);
      WriteMoreFields(env, t, fields, i, whole, CanonField(env, f, item, depth), tag, depth, used);
      SettledNext(env, fields, i, start, depth);
    }
  }

  lemma ItemGiven(c: Catalog, fields: seq<Field>, start: Members, i: nat)
    requires AllItems(c, fields, start) && i < |fields|
    ensures ItemOf(c, fields[i], start).Good?
  {
    hide ItemOf;
  }

  lemma HoldsItem(env: Env, fields: seq<Field>, i: nat, start: Members, depth: nat)
    requires i < |fields| && depth <= MAX_DEPTH && Distinct(fields) && AllItems(env.catalog, fields, start)
    ensures var whole := Whole(env, fields, |fields|, start, depth);
            var item := CanonField(env, fields[i], ItemOf(env.catalog, fields[i], start).value, depth);
            && ItemOf(env.catalog, fields[i], whole) == Good(item) && whole[fields[i].name := item] == whole
            && Whole(env, fields, i + 1, start, depth) == Whole(env, fields, i, start, depth)[fields[i].name := item]
  {
    hide CanonField;
    WholeHolds(env, fields, |fields|, start, depth);
  }

  /** One turn of the loop. */
  lemma TurnRoundTrip(env: Env, t: Type, fields: seq<Field>, i: nat, start: Members, members: Members,
                      tag: Option<J.Json>, depth: nat, used: nat, rest: Text)
    requires Serves(env) && depth <= MAX_DEPTH && i < |fields| && GoodFields(env.catalog, t, fields)
    requires AllItems(env.catalog, fields, start)
    requires t == FibPathNh ==> tag.Some?
    requires Filled(env.catalog, fields, i, start, members)
    requires var item := ItemOf(env.catalog, fields[i], start).value;
             WriteField(env, t, fields[i], members[fields[i].name := item], item, tag, depth, used).Good?
    ensures var item := ItemOf(env.catalog, fields[i], start).value;
            var b := WriteField(env, t, fields[i], members[fields[i].name := item], item, tag, depth, used).value;
            var whole := Whole(env, fields, |fields|, start, depth);
            && ReadField(env, t, fields[i], Whole(env, fields, i, start, depth), tag, b + rest, depth)
               == Good((CanonField(env, fields[i], item, depth), rest))
            && (Telling(env.host) ==>
                  Rewritten(WriteField(env, t, fields[i], whole, CanonField(env, fields[i], item, depth), tag, depth,
                                       used),
                            SettledField(env, fields[i], item, depth), b))
    decreases MAX_DEPTH + 1 - depth, 2, 1
  {
    hide SettledField, Telling, Rewritten;
    hide Serves, WriteField, ReadField, CanonField, ItemOf, Filled, Agrees, Tagged, ArrayCount, Chosen, Steady,
         IsCounter, Discriminator, Whole, Ascii;
    var f := fields[i];
    var item := ItemOf(env.catalog, f, start).value;
    var before, whole := Whole(env, fields, i, start, depth), Whole(env, fields, |fields|, start, depth);
    WholeHolds(env, fields, i, start, depth);
    WholeHolds(env, fields, |fields|, start, depth);
    AgreesBefore(env, fields, i, start, whole, depth);
    if IsArray(f) {
      SameCount(env, t, fields, i, start, members, before, item, depth);
      SameCount(env, t, fields, i, start, members, whole, item, depth);
    } else if !FixedText(f) {
      SameChoice(env, t, fields, i, start, members, before, item, tag, depth);
      SameChoice(env, t, fields, i, start, members, whole, item, tag, depth);
      if Tagged(env.catalog, f.type_) && Chosen(t, f, members[f.name := item], tag).Good? {
        ChoiceMade(env, t, fields, i, start, members, item, tag);
      }
    }
    TextNotTagged(env.catalog, f);
    FieldRoundTrip(env, t, f, members[f.name := item], before, whole, item, tag, depth, used, rest);
  }

  lemma TextNotTagged(c: Catalog, f: Field)
    ensures FixedText(f) ==> !Tagged(c, f.type_)
  {
  }

  lemma AgreesBefore(env: Env, fields: seq<Field>, i: nat, start: Members, whole: Members, depth: nat)
    requires i <= |fields| && depth <= MAX_DEPTH && Agrees(env, fields, |fields|, start, whole, depth)
    ensures Agrees(env, fields, i, start, whole, depth)
  {
    hide CanonField, ItemOf;
  }

  // ---- Structs ----

  /** The lengths of counted arrays follow from the arrays, so leaving them out loses nothing. */
  ghost predicate LengthsFollow(fields: seq<Field>, whole: Members) {
    forall j :: 0 <= j < |fields| && fields[j].count.Some? ==>
      && fields[j].name in whole && whole[fields[j].name].Arr? && fields[j].count.value in whole
      && whole[fields[j].count.value] == J.Num(|whole[fields[j].name].items|)
  }

  lemma {:induction false} CountedAgain(fields: seq<Field>, i: nat, whole: Members, partial: Members)
    requires i <= |fields| && LengthsFollow(fields, whole)
    requires partial.Keys <= whole.Keys && (forall k :: k in partial ==> partial[k] == whole[k])
    requires forall j :: 0 <= j < |fields| && fields[j].count.Some? ==> fields[j].name in partial
    requires forall k :: k in whole ==> k in partial || exists j :: i <= j < |fields| && fields[j].count == Some(k)
    ensures Counted(fields, i, partial) == Good(whole)
    decreases |fields| - i
  {
    if i == |fields| {
      assert partial == whole;
    } else if fields[i].count.Some? {
      var more := partial[fields[i].count.value := J.Num(|partial[fields[i].name].items|)];
      CountedAgain(fields, i + 1, whole, more);
    } else {
      CountedAgain(fields, i + 1, whole, partial);
    }
  }

  lemma LengthsHold(env: Env, t: Type, fields: seq<Field>, start: Members, tag: Option<J.Json>, depth: nat, used: nat)
    requires depth <= MAX_DEPTH && GoodFields(env.catalog, t, fields) && AllItems(env.catalog, fields, start)
    requires WriteFields(env, t, fields, 0, start, tag, depth, used).Good?
    ensures LengthsFollow(fields, Whole(env, fields, |fields|, start, depth))
  {
    hide WriteFields, Whole, GoodFields, AllItems;
    var whole := Whole(env, fields, |fields|, start, depth);
    forall j | 0 <= j < |fields| && fields[j].count.Some?
      ensures && fields[j].name in whole && whole[fields[j].name].Arr? && fields[j].count.value in whole
              && whole[fields[j].count.value] == J.Num(|whole[fields[j].name].items|)
    {
      LengthHolds(env, t, fields, j, start, tag, depth, used);
    }
  }

  lemma LengthHolds(env: Env, t: Type, fields: seq<Field>, j: nat, start: Members, tag: Option<J.Json>, depth: nat,
                    used: nat)
    requires depth <= MAX_DEPTH && GoodFields(env.catalog, t, fields) && AllItems(env.catalog, fields, start)
    requires WriteFields(env, t, fields, 0, start, tag, depth, used).Good? && j < |fields| && fields[j].count.Some?
    ensures var whole := Whole(env, fields, |fields|, start, depth);
            && fields[j].name in whole && whole[fields[j].name].Arr? && fields[j].count.value in whole
            && whole[fields[j].count.value] == J.Num(|whole[fields[j].name].items|)
  {
    hide WriteFields, WriteField, CanonField, ItemOf, Filled, Whole, Tagged, Steady, KeyOf, AllItems;
    GoodIsDistinct(env.catalog, t, fields);
    WholeHolds(env, fields, |fields|, start, depth);
    FilledStart(env.catalog, fields, start);
    assert GoodField(env.catalog, t, fields, j);
    var m: nat :| Earlier(fields, j, m, fields[j].count.value) && IsCounter(fields[m]);
    var at, before := FieldWritten(env, t, fields, 0, start, start, tag, depth, used, j);
    var there, then_ := FieldWritten(env, t, fields, 0, start, start, tag, depth, used, m);
    CounterAt(env.catalog, fields, j + 1, m, start, at);
    ArrayLength(env, t, fields[j], fields[m], at, there, start, tag, depth, before, then_);
  }

  lemma CounterAt(c: Catalog, fields: seq<Field>, n: nat, m: nat, start: Members, at: Members)
    requires m < n <= |fields| && Filled(c, fields, n, start, at)
    ensures ItemOf(c, fields[m], start).Good? && fields[m].name in at
    ensures at[fields[m].name] == ItemOf(c, fields[m], start).value
  {
    hide ItemOf;
  }

  /** The length that was written is the length of the array, in both forms. */
  lemma ArrayLength(env: Env, t: Type, f: Field, counter: Field, at: Members, there: Members, start: Members,
                    tag: Option<J.Json>, depth: nat, used: nat, before: nat)
    requires depth <= MAX_DEPTH && IsCounter(counter) && IsArray(f) && f.count == Some(counter.name)
    requires ItemOf(env.catalog, f, start).Good? && ItemOf(env.catalog, counter, start).Good?
    requires counter.name in at && at[counter.name] == ItemOf(env.catalog, counter, start).value
    requires WriteField(env, t, f, at, ItemOf(env.catalog, f, start).value, tag, depth, used).Good?
    requires WriteField(env, t, counter, there, ItemOf(env.catalog, counter, start).value, tag, depth, before).Good?
    ensures var item, number := ItemOf(env.catalog, f, start).value, ItemOf(env.catalog, counter, start).value;
            && CanonField(env, f, item, depth).Arr?
            && CanonField(env, counter, number, depth) == J.Num(|CanonField(env, f, item, depth).items|)
  {
    hide ItemOf, WriteItems, CanonItems, CanonUnion, Whole;
    var item, number := ItemOf(env.catalog, f, start).value, ItemOf(env.catalog, counter, start).value;
    CounterStays(env, counter, number, depth);
    CounterRange(env, t, counter, there, number, tag, depth, before);
    assert item.Arr? && |item.items| == Unsigned64(number.n);
  }

  lemma CounterRange(env: Env, t: Type, counter: Field, there: Members, number: J.Json, tag: Option<J.Json>, depth: nat,
                     before: nat)
    requires depth <= MAX_DEPTH && IsCounter(counter)
    requires WriteField(env, t, counter, there, number, tag, depth, before).Good?
    ensures number.Num? && Unsigned64(number.n) == number.n
  {
    hide Chosen;
    Pow256Values();
    assert WriteFixed(env.host, counter.type_, number).Good?;
  }

  /** What is left after dropping the derived lengths prepares to the same object. */
  lemma PreparedAgain(env: Env, t: Type, fields: seq<Field>, whole: Members)
    requires GoodFields(env.catalog, t, fields) && LengthsFollow(fields, whole)
    requires whole.Keys == FirstNames(fields, |fields|)
    ensures Prepared(fields, whole - Counts(fields)) == Good(whole)
  {
    hide Tagged, Steady, KeyOf;
    var partial := whole - Counts(fields);
    forall k | k in partial ensures IsNamed(fields, k) && k !in Counts(fields) {
      assert k in FirstNames(fields, |fields|);
    }
    forall j | 0 <= j < |fields| && fields[j].count.Some? ensures fields[j].name in partial {
      ArrayIsNoCount(env, t, fields, j);
    }
    CountedAgain(fields, 0, whole, partial);
  }

  lemma SameName(fields: seq<Field>, m: nat, j: nat)
    requires Distinct(fields) && m < |fields| && j < |fields| && fields[m].name == fields[j].name
    ensures m == j
  {
  }

  lemma ArrayIsNoCount(env: Env, t: Type, fields: seq<Field>, j: nat)
    requires j < |fields| && GoodFields(env.catalog, t, fields) && fields[j].count.Some?
    ensures fields[j].name !in Counts(fields)
  {
    hide Tagged, Steady, KeyOf;
    assert GoodField(env.catalog, t, fields, j);
    if fields[j].name in Counts(fields) {
      var l :| 0 <= l < |fields| && fields[l].count == Some(fields[j].name);
      assert GoodField(env.catalog, t, fields, l);
      var m: nat :| Earlier(fields, l, m, fields[l].count.value) && IsCounter(fields[m]);
      assert false by { SameName(fields, m, j); }
    }
  }

  /** An address or prefix is spelled so that it stands for the same fields again, or
      for none if its length does not suit the family that is left. */
  ghost predicate SpelledBack(t: Type, start: Members, members: Members) {
    && Projected(t, members).Good?
    && var again := Lifted(t, Projected(t, members).value);
    && (if IsPrefix(t) && !FitsFamily(start) then again.Bad? else again == Good(J.Obj(members)))
  }

  lemma OfStruct(env: Env, t: Type, v: J.Json, tag: Option<J.Json>, depth: nat, used: nat)
    requires !IsLeaf(t) && t in env.catalog && env.catalog[t].Struct? && depth <= MAX_DEPTH
    ensures var fields, lifted := env.catalog[t].fields, Lifted(t, v);
            if lifted.Good? && lifted.value.Obj? && Prepared(fields, lifted.value.m).Good?
            then Start(t, fields, v) == Prepared(fields, lifted.value.m).value
                 && Write(env, t, v, tag, depth, used)
                     == WriteFields(env, t, fields, 0, Start(t, fields, v), tag, depth, used)
            else Write(env, t, v, tag, depth, used).Bad?
  {
    hide IsLeaf, WriteFields, WriteItems, WriteUnion, WriteLeaf, Numeric, Lifted, Prepared;
    assert Write(env, t, v, tag, depth, used) == WriteDefined(env, t, env.catalog[t], v, tag, depth, used);
  }

  lemma ReadOfStruct(env: Env, t: Type, b: Text, tag: Option<J.Json>, depth: nat)
    requires !IsLeaf(t) && t in env.catalog && env.catalog[t].Struct? && depth <= MAX_DEPTH
    requires ReadFields(env, t, env.catalog[t].fields, 0, map[], tag, b, depth).Good?
    ensures var fields := env.catalog[t].fields;
            var (members, rest) := ReadFields(env, t, fields, 0, map[], tag, b, depth).value;
            Read(env, t, b, tag, depth) == Paired(Projected(t, members - Counts(fields)), rest)
  {
    hide IsLeaf, ReadFields, Projected, Counts;
    assert Read(env, t, b, tag, depth) == ReadDefined(env, t, env.catalog[t], b, tag, depth);
  }

  lemma CanonOfStruct(env: Env, t: Type, v: J.Json, depth: nat)
    requires !IsLeaf(t) && t in env.catalog && env.catalog[t].Struct? && depth <= MAX_DEPTH
    ensures var fields := env.catalog[t].fields;
            Canon(env, t, v, depth)
                == Flattened(t, v, Whole(env, fields, |fields|, Start(t, fields, v), depth) - Counts(fields))
  {
    hide IsLeaf, Whole, Start, Counts, Projected;
    assert Canon(env, t, v, depth) == CanonDefined(env, t, env.catalog[t], v, depth);
  }

  lemma StructRoundTrip(env: Env, t: Type, v: J.Json, tag: Option<J.Json>, depth: nat, used: nat, rest: Text)
    requires Serves(env) && depth <= MAX_DEPTH && (t == FibPathNh ==> tag.Some?)
    requires !IsLeaf(t) && t in env.catalog && env.catalog[t].Struct? && Write(env, t, v, tag, depth, used).Good?
    ensures var b := Write(env, t, v, tag, depth, used).value;
            && Read(env, t, b + rest, tag, depth) == Good((Canon(env, t, v, depth), rest))
            && (Telling(env.host) ==>
                  Rewritten(Write(env, t, Canon(env, t, v, depth), tag, depth, used), Settled(env, t, v, depth), b))
    decreases MAX_DEPTH + 1 - depth, 3, |env.catalog[t].fields| + 1
  {
    hide Serves, Write, Read, Canon, WriteFields, ReadFields, Whole, GoodFields, Prepared, Lifted, Projected, IsLeaf,
         Counts, Filled, AllItems, Start, GoodText, Tagged, Distinct, LengthsFollow, Agrees, FirstNames, Telling,
         Settled, SettledFields, FitsFamily;
    var fields := env.catalog[t].fields;
    var b := Write(env, t, v, tag, depth, used).value;
    OfStruct(env, t, v, tag, depth, used);
    CanonOfStruct(env, t, v, depth);
    FieldsAreGood(env, t);
    var start := Start(t, fields, v);
    GoodIsDistinct(env.catalog, t, fields);
    ItemsGiven(env, t, fields, start, tag, depth, used);
    FilledStart(env.catalog, fields, start);
    FieldsRoundTrip(env, t, fields, 0, start, start, tag, depth, used, rest);
    NothingRead(env, fields, start, depth);
    var whole := Whole(env, fields, |fields|, start, depth);
    WholeHolds(env, fields, |fields|, start, depth);
    LengthsHold(env, t, fields, start, tag, depth, used);
    PreparedAgain(env, t, fields, whole);
    TextRead(env, t, v, tag, depth, used);
    ReadOfStruct(env, t, b + rest, tag, depth);
    SettledStruct(env, t, v, depth);
    OfStruct(env, t, Canon(env, t, v, depth), tag, depth, used);
  }

  lemma SettledStruct(env: Env, t: Type, v: J.Json, depth: nat)
    requires !IsLeaf(t) && t in env.catalog && env.catalog[t].Struct? && depth <= MAX_DEPTH
    ensures var fields := env.catalog[t].fields;
            Settled(env, t, v, depth)
            <==> (IsPrefix(t) ==> FitsFamily(Start(t, fields, v)))
                 && SettledFields(env, fields, 0, Start(t, fields, v), depth)
  {
    hide IsLeaf, Start, FitsFamily, SettledFields;
    assert Settled(env, t, v, depth) == SettledDefined(env, t, env.catalog[t], v, depth);
  }

  lemma NothingRead(env: Env, fields: seq<Field>, start: Members, depth: nat)
    requires depth <= MAX_DEPTH
    ensures Whole(env, fields, 0, start, depth) == map[]
  {
  }

  lemma GoodIsDistinct(c: Catalog, t: Type, fields: seq<Field>)
    requires GoodFields(c, t, fields)
    ensures Distinct(fields)
  {
    hide GoodField;
  }

  /** For every struct, the value that is read stands for the object that was read. */
  lemma TextRead(env: Env, t: Type, v: J.Json, tag: Option<J.Json>, depth: nat, used: nat)
    requires Serves(env) && depth <= MAX_DEPTH
    requires !IsLeaf(t) && t in env.catalog && env.catalog[t].Struct? && Write(env, t, v, tag, depth, used).Good?
    ensures var fields := env.catalog[t].fields;
            var start := Start(t, fields, v);
            var members := Whole(env, fields, |fields|, start, depth) - Counts(fields);
            Projected(t, members).Good? && (Telling(env.host) ==> SpelledBack(t, start, members))
  {
    hide Whole, Serves, Telling, Write, Start, Counts, IsLeaf, FitsFamily;
    if t == Address {
      AddressRead(env, v, tag, depth, used);
    } else if IsPrefix(t) {
      PrefixRead(env, t, v, tag, depth, used);
    }
  }

  // ---- Addresses ----

  /** The spelling of an address shows its family. */
  lemma IpRead(env: Env, t: Type, v: J.Json, tag: Option<J.Json>, depth: nat, used: nat)
    requires Serves(env) && depth <= MAX_DEPTH + 1 && (t == Ip4 || t == Ip6) && Write(env, t, v, tag, depth, used).Good?
    ensures depth <= MAX_DEPTH && v.Str? && Canon(env, t, v, depth).Str?
    ensures Telling(env.host) ==>
              (J.COLON in UpToNul(v.s) <==> t == Ip6) && (J.COLON in Canon(env, t, v, depth).s <==> t == Ip6)
  {
    hide GoodCatalog, WriteFixed, CanonLeaf, ReadFixed, Telling, UpToNul;
    TooDeep(env, t, v, tag, used);
    OfLeaf(env, t, v, [], tag, depth, used);
    IpText(env.host, t, v, used);
    assert Canon(env, t, v, depth) == CanonLeaf(env.host, t, v);
  }

  lemma IpText(h: Host, t: Type, v: J.Json, used: nat)
    requires Consistent(h) && (t == Ip4 || t == Ip6) && WriteLeaf(h, t, v, used).Good?
    ensures v.Str? && CanonLeaf(h, t, v).Str?
    ensures Telling(h) ==> (J.COLON in UpToNul(v.s) <==> t == Ip6) && (J.COLON in CanonLeaf(h, t, v).s <==> t == Ip6)
  {
    hide Resolves, Faithful, UpToNul;
    UpToNulHasNone(v.s);
  }

  /** Two plain fields and no lengths: the object is the two of them. */
  lemma TwoFields(env: Env, t: Type, fields: seq<Field>, start: Members, depth: nat)
    requires depth <= MAX_DEPTH && |fields| == 2 && fields[0].count.None? && fields[1].count.None?
    requires fields[0].name != fields[1].name
    requires fields[0].name in start && fields[1].name in start
    ensures Whole(env, fields, |fields|, start, depth) - Counts(fields)
         == map[fields[0].name := CanonField(env, fields[0], start[fields[0].name], depth),
                fields[1].name := CanonField(env, fields[1], start[fields[1].name], depth)]
  {
    hide CanonField;
    assert Counts(fields) == {};
    assert Whole(env, fields, 1, start, depth)
        == map[fields[0].name := CanonField(env, fields[0], start[fields[0].name], depth)];
  }

  lemma PreparedPlain(fields: seq<Field>, members: Members)
    requires |fields| == 2 && fields[0].count.None? && fields[1].count.None? && Prepared(fields, members).Good?
    ensures Prepared(fields, members) == Good(members)
  {
    assert Counted(fields, 1, members) == Good(members);
  }

  lemma AddressNames()
    ensures AF != UN && IP4 != IP6 && ADDRESS != LEN
  {
    assert AF[0] != UN[0] && IP4[2] != IP6[2];
  }

  lemma OfOneMember(env: Env, t: Type, fields: seq<Field>, name: Text, v: J.Json, tag: Option<J.Json>, depth: nat,
                    used: nat)
    requires depth <= MAX_DEPTH && WriteUnion(env, t, fields, J.Obj(map[name := v]), tag, depth, used).Good?
    ensures MemberNamed(fields, name).Some?
    ensures var member := MemberNamed(fields, name).value;
            && Write(env, member.type_, v, None, depth + 1, 0).Good?
            && CanonUnion(env, fields, J.Obj(map[name := v]), depth)
                == J.Obj(map[name := Canon(env, member.type_, v, depth + 1)])
  {
    hide Write, Canon, FixedSize, Variable, MemberNamed;
    OneKey(name, v);
  }

  lemma UnionRead(env: Env, v: J.Json, name: Text, tag: Option<J.Json>, depth: nat, used: nat)
    requires Serves(env) && depth <= MAX_DEPTH + 1 && (name == IP4 || name == IP6)
    requires AddressUnion in env.catalog && env.catalog[AddressUnion].Union?
    requires Write(env, AddressUnion, J.Obj(map[name := v]), tag, depth, used).Good?
    ensures depth < MAX_DEPTH
    ensures var t := if name == IP6 then Ip6 else Ip4;
            && Write(env, t, v, None, depth + 1, 0).Good?
            && Canon(env, AddressUnion, J.Obj(map[name := v]), depth) == J.Obj(map[name := Canon(env, t, v, depth + 1)])
  {
    hide Ascii, Write, Read, Canon, MemberNamed, GoodMembers, Serves, WriteUnion, CanonUnion, ReadUnion;
    AddressNames();
    MembersAreGood(env, AddressUnion);
    var fields := env.catalog[AddressUnion].fields;
    var whole := J.Obj(map[name := v]);
    TooDeep(env, AddressUnion, whole, tag, used);
    OfUnion(env, AddressUnion, whole, [], tag, depth, used);
    OfOneMember(env, AddressUnion, fields, name, v, tag, depth, used);
    MemberIsThere(fields, name);
    var t := if name == IP6 then Ip6 else Ip4;
    assert MemberNamed(fields, name).value.type_ == t;
    TooDeep(env, t, v, None, 0);
  }

  /** A plain field of a type by itself. */
  lemma OfPlainField(env: Env, t: Type, f: Field, members: Members, item: J.Json, tag: Option<J.Json>, depth: nat,
                     used: nat)
    requires depth <= MAX_DEPTH && f.length.None? && WriteField(env, t, f, members, item, tag, depth, used).Good?
    ensures Chosen(t, f, members, tag).Good?
    ensures Write(env, f.type_, item, Chosen(t, f, members, tag).value, depth + 1, used).Good?
    ensures CanonField(env, f, item, depth) == Canon(env, f.type_, item, depth + 1)
  {
    hide Write, Canon, Chosen;
  }

  lemma LiftedAddress(v: J.Json)
    requires Lifted(Address, v).Good?
    ensures v.Str?
    ensures var name := if J.COLON in v.s then IP6 else IP4;
            var family := if J.COLON in v.s then ADDRESS_IP6 else ADDRESS_IP4;
            Lifted(Address, v) == Good(J.Obj(map[AF := J.Str(family), UN := J.Obj(map[name := v])]))
  {
    hide Ascii;
  }

  lemma ProjectedAddress(family: J.Json, name: Text, v: J.Json)
    ensures Projected(Address, map[AF := family, UN := J.Obj(map[name := v])]) == Good(v)
  {
    hide Ascii;
    OneKey(name, v);
    AddressNames();
  }

  function AddressMembers(family: J.Json, name: Text, v: J.Json): Members {
    map[AF := family, UN := J.Obj(map[name := v])]
  }

  /** The two fields of an address in canonical form. */
  lemma AddressFields(env: Env, family: J.Json, v: J.Json, tag: Option<J.Json>, depth: nat, used: nat)
    requires Serves(env) && depth <= MAX_DEPTH && Address in env.catalog && env.catalog[Address].Struct? && v.Str?
    requires var name := if J.COLON in v.s then IP6 else IP4;
             var fields := env.catalog[Address].fields;
             WriteFields(env, Address, fields, 0, AddressMembers(family, name, v), tag, depth, used).Good?
    ensures depth + 2 <= MAX_DEPTH
    ensures var fields := env.catalog[Address].fields;
            var again := Canon(env, if J.COLON in v.s then Ip6 else Ip4, v, depth + 2);
            var name := if J.COLON in v.s then IP6 else IP4;
            && again.Str?
            && (Telling(env.host) ==>
                  (J.COLON in again.s <==> J.COLON in v.s) && (J.COLON in UpToNul(v.s) <==> J.COLON in v.s))
            && Whole(env, fields, |fields|, AddressMembers(family, name, v), depth) - Counts(fields)
                == AddressMembers(family, name, again)
  {
    hide Ascii, Whole, Canon, Write, WriteField, WriteFields, CanonField, GoodFields, Serves, Counts, Filled, Steady,
         Chosen, Distinct, Telling, UpToNul;
    AddressNames();
    FieldsAreGood(env, Address);
    UnionIsThere(env);
    var fields := env.catalog[Address].fields;
    var name := if J.COLON in v.s then IP6 else IP4;
    var t := if J.COLON in v.s then Ip6 else Ip4;
    var start := AddressMembers(family, name, v);
    GoodIsDistinct(env.catalog, Address, fields);
    TwoFields(env, Address, fields, start, depth);
    FilledStart(env.catalog, fields, start);
    var at, before := FieldWritten(env, Address, fields, 0, start, start, tag, depth, used, 1);
    OfPlainField(env, Address, fields[1], at, start[UN], tag, depth, before);
    FamilyIsSteady(env.catalog, fields);
    SteadyStays(env, fields[0], start[AF], depth);
    UnionRead(env, v, name, Chosen(Address, fields[1], at, tag).value, depth + 1, before);
    IpRead(env, t, v, None, depth + 2, 0);
  }

  lemma AddressRead(env: Env, v: J.Json, tag: Option<J.Json>, depth: nat, used: nat)
    requires Serves(env) && depth <= MAX_DEPTH
    requires Address in env.catalog && env.catalog[Address].Struct? && Write(env, Address, v, tag, depth, used).Good?
    ensures var fields := env.catalog[Address].fields;
            var start := Start(Address, fields, v);
            var members := Whole(env, fields, |fields|, start, depth) - Counts(fields);
            && v.Str? && Projected(Address, members).Good? && Projected(Address, members).value.Str?
            && (Telling(env.host) ==>
                  && Lifted(Address, Projected(Address, members).value) == Good(J.Obj(members))
                  && (J.COLON in Projected(Address, members).value.s <==> J.COLON in UpToNul(v.s)))
  {
    hide Telling, UpToNul;
    hide Ascii, Whole, Canon, Write, WriteFields, GoodFields, Prepared, Serves, Lifted, Projected, Counts, Start;
    AddressNames();
    FieldsAreGood(env, Address);
    var fields := env.catalog[Address].fields;
    OfStruct(env, Address, v, tag, depth, used);
    LiftedAddress(v);
    var start := Lifted(Address, v).value.m;
    PreparedPlain(fields, start);
    AddressFields(env, start[AF], v, tag, depth, used);
    var again := Canon(env, if J.COLON in v.s then Ip6 else Ip4, v, depth + 2);
    ProjectedAddress(start[AF], if J.COLON in v.s then IP6 else IP4, again);
    LiftedText(again);
  }

  lemma LiftedText(v: J.Json)
    requires v.Str?
    ensures Lifted(Address, v).Good?
    ensures var name := if J.COLON in v.s then IP6 else IP4;
            var family := if J.COLON in v.s then ADDRESS_IP6 else ADDRESS_IP4;
            Lifted(Address, v) == Good(J.Obj(map[AF := J.Str(family), UN := J.Obj(map[name := v])]))
  {
    hide Ascii;
  }

  lemma UnionIsThere(env: Env)
    requires Serves(env) && Address in env.catalog
    ensures AddressUnion in env.catalog && env.catalog[AddressUnion].Union?
  {
    hide Consistent, NativeSizes, GoodDefinition;
  }

  lemma FamilyIsSteady(c: Catalog, fields: seq<Field>)
    requires |fields| == 2 && GoodFields(c, Address, fields) && GoodText(Address, fields)
    requires AddressUnion in c && c[AddressUnion].Union?
    ensures Steady(c, fields[0])
  {
    hide Ascii;
    assert GoodField(c, Address, fields, 1);
    assert TaggedWithin(c, AddressUnion, MAX_DEPTH + 1);
  }

  // ---- Prefixes ----

  lemma {:induction false} LastSlashOf(before: Text, after: Text)
    requires SLASH !in after
    ensures LastSlash(before + [SLASH] + after) == Some(|before|)
    decreases |after|
  {
    var t := before + [SLASH] + after;
    if after == [] {
      assert t[|t| - 1] == SLASH;
    } else {
      var shorter := after[..|after| - 1];
      assert t[|t| - 1] == after[|after| - 1];
      assert t[..|t| - 1] == before + [SLASH] + shorter;
      LastSlashOf(before, shorter);
    }
  }

  lemma PrefixSpelled(t: Type, ip: Text, n: nat)
    requires IsPrefix(t)
    ensures var members: Members := map[ADDRESS := J.Str(ip), LEN := J.Num(n)];
            && Projected(t, members) == Good(J.Str(ip + [SLASH] + Decimal(n)))
            && Lifted(t, Projected(t, members).value)
               == if n <= (if J.COLON in ip then 128 else 32) then Good(J.Obj(members)) else Bad(InvalidParams)
  {
    hide Ascii, Parsed, LastSlash, Decimal;
    AddressNames();
    var digits := Decimal(n);
    assert SLASH !in digits by { NoSlash(n); }
    LastSlashOf(ip, digits);
    ParsedDecimal(n, false);
    var text := ip + [SLASH] + digits;
    assert text[..|ip|] == ip && text[|ip| + 1..] == digits;
    assert J.Dump(J.Num(n)) == digits;
    PrefixIsNoAddress(t);
  }

  lemma NoSlash(n: nat)
    ensures SLASH !in Decimal(n)
  {
  }

  lemma LiftedPrefixParts(t: Type, v: J.Json)
    requires IsPrefix(t) && Lifted(t, v).Good?
    ensures Lifted(t, v).value.Obj?
    ensures var m := Lifted(t, v).value.m;
            && m.Keys == {ADDRESS, LEN} && m[ADDRESS].Str? && m[LEN].Num?
            && 0 <= m[LEN].n <= (if J.COLON in m[ADDRESS].s then 128 else 32)
  {
    hide Ascii, LastSlash;
    AddressNames();
    LastSlashBound(v.s);
  }

  /** The two fields of a prefix in canonical form. */
  lemma PrefixFields(env: Env, t: Type, start: Members, tag: Option<J.Json>, depth: nat, used: nat)
    requires Serves(env) && depth <= MAX_DEPTH && IsPrefix(t) && t in env.catalog && env.catalog[t].Struct?
    requires start.Keys == {ADDRESS, LEN}
    requires WriteFields(env, t, env.catalog[t].fields, 0, start, tag, depth, used).Good?
    ensures var fields := env.catalog[t].fields;
            && |fields| == 2 && start[ADDRESS].Str?
            && var again := Canon(env, fields[0].type_, start[ADDRESS], depth + 1);
            && again.Str? && (Telling(env.host) ==> (J.COLON in again.s <==> J.COLON in UpToNul(start[ADDRESS].s)))
            && Whole(env, fields, |fields|, start, depth) - Counts(fields) == map[ADDRESS := again, LEN := start[LEN]]
  {
    hide Ascii, Whole, Canon, Write, WriteField, WriteFields, CanonField, GoodFields, Serves, Counts, Filled, Chosen,
         Distinct, Telling, UpToNul;
    AddressNames();
    FieldsAreGood(env, t);
    var fields := env.catalog[t].fields;
    GoodIsDistinct(env.catalog, t, fields);
    TwoFields(env, t, fields, start, depth);
    FilledStart(env.catalog, fields, start);
    var at, before := FieldWritten(env, t, fields, 0, start, start, tag, depth, used, 0);
    OfPlainField(env, t, fields[0], at, start[ADDRESS], tag, depth, before);
    LengthStays(env, fields[1], start[LEN], depth);
    PrefixAddress(env, fields[0].type_, start[ADDRESS], Chosen(t, fields[0], at, tag).value, depth + 1, before);
  }

  /** A prefix is spelled so that it stands for its address and length again exactly if
      the length suits the family of the address that is left. */
  lemma PrefixRead(env: Env, t: Type, v: J.Json, tag: Option<J.Json>, depth: nat, used: nat)
    requires Serves(env) && depth <= MAX_DEPTH && IsPrefix(t)
    requires t in env.catalog && env.catalog[t].Struct? && Write(env, t, v, tag, depth, used).Good?
    ensures var fields := env.catalog[t].fields;
            var start := Start(t, fields, v);
            var members := Whole(env, fields, |fields|, start, depth) - Counts(fields);
            Projected(t, members).Good? && (Telling(env.host) ==> SpelledBack(t, start, members))
  {
    hide Telling, UpToNul, Parsed;
    hide Ascii, Whole, Canon, Write, WriteFields, GoodFields, Prepared, Serves, Lifted, Projected, Counts, Start;
    FieldsAreGood(env, t);
    var fields := env.catalog[t].fields;
    OfStruct(env, t, v, tag, depth, used);
    LiftedPrefixParts(t, v);
    var start := Lifted(t, v).value.m;
    PreparedPlain(fields, start);
    PrefixFields(env, t, start, tag, depth, used);
    PrefixSpelled(t, Canon(env, fields[0].type_, start[ADDRESS], depth + 1).s, start[LEN].n);
  }

  lemma PrefixIsNoAddress(t: Type)
    requires IsPrefix(t)
    ensures t != Address
  {
  }

  lemma LengthStays(env: Env, f: Field, item: J.Json, depth: nat)
    requires depth <= MAX_DEPTH && f.type_ == U8 && f.length.None?
    ensures CanonField(env, f, item, depth) == item
  {
    hide CanonItems, CanonUnion, Whole;
  }

  /** The address of a prefix keeps its family. */
  lemma PrefixAddress(env: Env, t: Type, v: J.Json, tag: Option<J.Json>, depth: nat, used: nat)
    requires Serves(env) && depth <= MAX_DEPTH + 1 && (t == Address || t == Ip4 || t == Ip6)
    requires Write(env, t, v, tag, depth, used).Good?
    ensures v.Str? && Canon(env, t, v, depth).Str?
    ensures Telling(env.host) ==> (J.COLON in Canon(env, t, v, depth).s <==> J.COLON in UpToNul(v.s))
  {
    hide Telling, UpToNul, Whole, Serves, Write, Canon, Projected, Start, Counts, Lifted;
    if t == Address {
      TooDeep(env, t, v, tag, used);
      KnownType(env, t, v, tag, depth, used);
      AddressIsStruct(env);
      AddressRead(env, v, tag, depth, used);
      CanonOfStruct(env, t, v, depth);
    } else {
      IpRead(env, t, v, tag, depth, used);
    }
  }

  lemma AddressIsStruct(env: Env)
    requires Serves(env)
    ensures Address in env.catalog ==> env.catalog[Address].Struct?
  {
    hide Consistent, NativeSizes, GoodDefinition;
  }
}
