/** Loading API modules: a catalog only grows, and what it converted before it converts the
    same way ever after. */
module CatalogGrowth {
  import opened Text
  import opened Catalogs
  import opened Integers
  import opened Leaves
  import opened Codec
  import opened CodecSizes
  import J = JsonText

  // ---- Loading ----

  datatype Method = Method(request: Type, module_: Text, crc: Text)

  /** What a module document holds, in the order it is taken in: type definitions, an
      entry that is malformed or whose names are unsafe, and services. */
  datatype Entry = Defines(name: Type, definition: Definition) | Unfit | Offers(service: Text, method_: Method)

  datatype State = State(types: Catalog, methods: map<Text, Method>)

  /** One entry: the state after it, and whether loading goes on. */
  function Taken(s: State, entry: Entry): (State, bool) {
    match entry
    case Unfit => (s, false)
    case Defines(name, definition) =>
      if name in s.types && s.types[name] != definition then (s, false)
        else (s.(types := s.types[name := definition]), true)
    case Offers(name, method_) =>
      if name in s.methods then (s, false) else (s.(methods := s.methods[name := method_]), true)
  }

  function Loaded(s: State, entries: seq<Entry>): (State, bool)
    decreases |entries|
  {
    if entries == [] then (s, true)
    else
      var (t, ok) := Taken(s, entries[0]);
      if ok then Loaded(t, entries[1..]) else (t, false)
  }

  predicate Extends<K, V(==)>(a: map<K, V>, b: map<K, V>) { forall k :: k in a ==> k in b && b[k] == a[k] }

  class Schema {
    var types: Catalog
    var methods: map<Text, Method>

    function Now(): State
      reads this
    {
      State(types, methods)
    }

    constructor ()
      ensures Now() == State(map[], map[])
    {
      types, methods := map[], map[];
    }

    /** Takes in a module; a failure leaves what was taken in before it. */
    method AddModule(entries: seq<Entry>) returns (ok: bool)
      modifies this
      ensures (Now(), ok) == Loaded(old(Now()), entries)
    {
      var i := 0;
      assert entries[0..] == entries;
      while i < |entries|
        invariant i <= |entries| && Loaded(old(Now()), entries) == Loaded(Now(), entries[i..])
      {
        assert entries[i..][0] == entries[i] && entries[i..][1..] == entries[i + 1..];
        match entries[i] {
          case Unfit =>
            return false;
          case Defines(name, definition) =>
            if name in types && types[name] != definition {
              return false;
            }
            types := types[name := definition];
          case Offers(name, method_) =>
            if name in methods {
              return false;
            }
            methods := methods[name := method_];
        }
        i := i + 1;
      }
      return true;
    }
  }

  /** Whether loading succeeds or stops part-way, no definition is lost or changed. */
  lemma {:induction false} LoadingExtends(s: State, entries: seq<Entry>)
    ensures var (t, ok) := Loaded(s, entries); Extends(s.types, t.types) && Extends(s.methods, t.methods)
    decreases |entries|
  {
    if entries != [] {
      LoadingExtends(Taken(s, entries[0]).0, entries[1..]);
    }
  }

  predicate IsBasic(t: Type) { Width(t) > 0 }

  predicate OnlyFixedTexts(fields: seq<Field>) { forall i :: 0 <= i < |fields| ==> FixedText(fields[i]) }

  /** Messages keep their names and all other definitions get a prefix and a suffix, so under
      the name of a basic type there can only be a message. Harmless is any message called
      `string`, and under the other names one of nothing but fixed-length texts. */
  predicate Harmless(t: Type, d: Definition) { d.Struct? && (t == Characters || OnlyFixedTexts(d.fields)) }

  predicate Tame(c: Catalog) { forall t :: t in c && IsBasic(t) ==> Harmless(t, c[t]) }

  ghost predicate Grown(c: Catalog, g: Catalog) { Extends(c, g) && Tame(g) }

  // ---- Static sizes ----

  lemma {:induction false} SizeStays(c: Catalog, g: Catalog, t: Type, d: nat)
    requires Grown(c, g) && FixedSize(c, t, d) >= 0
    ensures FixedSize(g, t, d) == FixedSize(c, t, d)
    decreases MAX_DEPTH + 1 - d, 2, 0
  {
    hide Width, DefinedSize;
    if Width(t) == 0 {
      DefinedStays(c, g, c[t], d);
    }
  }

  lemma {:induction false} DefinedStays(c: Catalog, g: Catalog, def: Definition, d: nat)
    requires Grown(c, g) && d <= MAX_DEPTH && DefinedSize(c, def, d) >= 0
    ensures DefinedSize(g, def, d) == DefinedSize(c, def, d)
    decreases MAX_DEPTH + 1 - d, 1, 0
  {
    hide FieldSizes, Times, FixedSize;
    match def
    case Alias(base, _) => SizeStays(c, g, base, d + 1);
    case Enumeration(base, _, _) => SizeStays(c, g, base, d + 1);
    case Struct(fields) => SizesStay(c, g, fields, |fields|, false, d);
    case Union(fields) => SizesStay(c, g, fields, |fields|, true, d);
  }

  lemma {:induction false} SizesStay(c: Catalog, g: Catalog, fields: seq<Field>, n: nat, union_: bool, d: nat)
    requires Grown(c, g) && n <= |fields| && d <= MAX_DEPTH && FieldSizes(c, fields, n, union_, d) >= 0
    ensures FieldSizes(g, fields, n, union_, d) == FieldSizes(c, fields, n, union_, d)
    decreases MAX_DEPTH + 1 - d, 0, n + 1
  {
    hide FixedSize, Times;
    if n > 0 {
      SizesStay(c, g, fields, n - 1, union_, d);
      var f := fields[n - 1];
      if f.type_ != Characters {
        if FixedSize(c, f.type_, d + 1) >= 0 {
          SizeStays(c, g, f.type_, d + 1);
        } else {
          NoElements(FixedSize(c, f.type_, d + 1), FixedSize(g, f.type_, d + 1), f.length);
        }
      }
    }
  }

  lemma {:induction false} FixedStays(c: Catalog, g: Catalog, t: Type, d: nat)
    requires Grown(c, g) && HasSize(c, t, d)
    ensures !Variable(g, t, d)
    decreases MAX_DEPTH + 1 - d, 1
  {
    hide FieldSizes, VariableField, Width;
    if t in g && Width(t) > 0 {
      TextsDoNotVary(c, g, t, d);
    } else if t in g {
      assert FixedSize(c, t, d) == DefinedSize(c, c[t], d);
      match c[t]
      case Alias(base, length) => FixedStays(c, g, base, d + 1);
      case Enumeration(_, _, _) =>
      case Struct(fields) => FieldsStay(c, g, fields, false, d);
      case Union(fields) => FieldsStay(c, g, fields, true, d);
    }
  }

  lemma TextsDoNotVary(c: Catalog, g: Catalog, t: Type, d: nat)
    requires Tame(g) && t in g && IsBasic(t) && HasSize(c, t, d)
    ensures !Variable(g, t, d)
  {
    hide FixedSize;
    TextVaries(c, d);
    assert d <= MAX_DEPTH;
  }

  lemma {:induction false} FieldsStay(c: Catalog, g: Catalog, fields: seq<Field>, union_: bool, d: nat)
    requires Grown(c, g) && d <= MAX_DEPTH && FieldSizes(c, fields, |fields|, union_, d) >= 0
    requires forall i :: 0 <= i < |fields| ==> !VariableField(c, fields[i], d)
    ensures forall i :: 0 <= i < |fields| ==> !VariableField(g, fields[i], d)
    decreases MAX_DEPTH + 1 - d, 0
  {
    hide FieldSizes, FixedSize, Variable;
    forall i | 0 <= i < |fields| ensures !VariableField(g, fields[i], d) {
      var f := fields[i];
      PartSizes(c, fields, |fields|, union_, d, i);
      if !FixedText(f) {
        TextVaries(c, d + 1);
        if FixedSize(c, f.type_, d + 1) < 0 {
          NoElements(FixedSize(c, f.type_, d + 1), 0, f.length);
        }
        FixedStays(c, g, f.type_, d + 1);
      }
    }
  }

  lemma UnionStays(c: Catalog, g: Catalog, t: Type)
    requires Grown(c, g) && FixedSize(c, t, 0) >= 0 && !Variable(c, t, 0)
    ensures FixedSize(g, t, 0) == FixedSize(c, t, 0) && !Variable(g, t, 0)
  {
    hide FixedSize, Variable;
    SizeStays(c, g, t, 0);
    FixedStays(c, g, t, 0);
  }

  // ---- Writing ----

  /** What could be written before is written as the same bytes. */
  lemma {:induction false} WriteStays(env: Env, grown: Env, t: Type, v: J.Json, tag: Option<J.Json>, depth: nat,
                                      used: nat)
    requires Grown(env.catalog, grown.catalog) && grown.host == env.host && depth <= MAX_DEPTH + 1
    requires Write(env, t, v, tag, depth, used).Good?
    ensures Write(grown, t, v, tag, depth, used) == Write(env, t, v, tag, depth, used)
    decreases MAX_DEPTH + 1 - depth, 5, 0
  {
    hide IsLeaf, WriteLeaf, WriteDefined;
    if !IsLeaf(t) {
      WriteDefinedStays(env, grown, t, env.catalog[t], v, tag, depth, used);
    }
  }

  lemma {:induction false} WriteDefinedStays(env: Env, grown: Env, t: Type, d: Definition, v: J.Json,
                                             tag: Option<J.Json>, depth: nat, used: nat)
    requires Grown(env.catalog, grown.catalog) && grown.host == env.host && depth <= MAX_DEPTH
    requires WriteDefined(env, t, d, v, tag, depth, used).Good?
    ensures WriteDefined(grown, t, d, v, tag, depth, used) == WriteDefined(env, t, d, v, tag, depth, used)
    decreases MAX_DEPTH + 1 - depth, 4, 0
  {
    hide Write, WriteItems, WriteUnion, WriteFields, Numeric, Lifted, Prepared;
    match d
    case Alias(base, None) => WriteStays(env, grown, base, v, tag, depth + 1, used);
    case Alias(base, Some(n)) => WriteItemsStay(env, grown, base, v.items, depth + 1, used);
    case Enumeration(base, values, flags) =>
      WriteStays(env, grown, base, Numeric(base, values, flags, v).value, None, depth + 1, used);
    case Union(fields) => WriteUnionStays(env, grown, t, fields, Lifted(t, v).value, tag, depth, used);
    case Struct(fields) =>
      WriteFieldsStay(env, grown, t, fields, 0, Prepared(fields, Lifted(t, v).value.m).value, tag, depth, used);
  }

  lemma {:induction false} WriteItemsStay(env: Env, grown: Env, t: Type, items: seq<J.Json>, depth: nat, used: nat)
    requires Grown(env.catalog, grown.catalog) && grown.host == env.host && depth <= MAX_DEPTH + 1
    requires WriteItems(env, t, items, depth, used).Good?
    ensures WriteItems(grown, t, items, depth, used) == WriteItems(env, t, items, depth, used)
    decreases MAX_DEPTH + 1 - depth, 6, |items|
  {
    hide Write, WriteItems, Grown;
    if items == [] {
      assert WriteItems(env, t, [], depth, used) == WriteItems(grown, t, [], depth, used) by {
        NoItems(env, grown, t, depth, used);
      }
    } else {
      OneItem(env, t, items, depth, used);
      OneItem(grown, t, items, depth, used);
      WriteStays(env, grown, t, items[0], None, depth, used);
      WriteItemsStay(env, grown, t, items[1..], depth, used + |Write(env, t, items[0], None, depth, used).value|);
    }
  }

  lemma NoItems(env: Env, grown: Env, t: Type, depth: nat, used: nat)
    requires depth <= MAX_DEPTH + 1
    ensures WriteItems(env, t, [], depth, used) == Good([]) == WriteItems(grown, t, [], depth, used)
  {
  }

  lemma NoFields(env: Env, t: Type, fields: seq<Field>, members: Members, tag: Option<J.Json>, depth: nat, used: nat)
    requires depth <= MAX_DEPTH
    ensures WriteFields(env, t, fields, |fields|, members, tag, depth, used) == Good([])
  {
  }

  lemma WriteUnionStays(env: Env, grown: Env, t: Type, fields: seq<Field>, v: J.Json, tag: Option<J.Json>, depth: nat,
                        used: nat)
    requires Grown(env.catalog, grown.catalog) && grown.host == env.host && depth <= MAX_DEPTH
    requires WriteUnion(env, t, fields, v, tag, depth, used).Good?
    ensures WriteUnion(grown, t, fields, v, tag, depth, used) == WriteUnion(env, t, fields, v, tag, depth, used)
    decreases MAX_DEPTH + 1 - depth, 3, 0
  {
    hide Write, FixedSize, Variable, MemberNamed, Grown, Fit, Resized;
    UnionStays(env.catalog, grown.catalog, t);
    var name := Sorted(v.m.Keys)[0];
    WriteStays(env, grown, MemberNamed(fields, name).value.type_, v.m[name], None, depth + 1, 0);
  }

  /** A default only ever gets a name where its type had one already, or none was of use. */
  lemma ItemStays(env: Env, grown: Env, t: Type, f: Field, members: Members, tag: Option<J.Json>, depth: nat, used: nat)
    requires Grown(env.catalog, grown.catalog) && depth <= MAX_DEPTH && ItemOf(env.catalog, f, members).Good?
    requires var item := ItemOf(env.catalog, f, members).value;
             WriteField(env, t, f, members[f.name := item], item, tag, depth, used).Good?
    ensures ItemOf(grown.catalog, f, members) == ItemOf(env.catalog, f, members)
  {
    hide Ascii, SymbolNamed, Write, WriteItems, ArrayCount, Chosen;
    if f.name !in members && f.type_ !in env.catalog && f.type_ in grown.catalog && grown.catalog[f.type_].Enumeration?
      && f.default_.value.Num? {
      var item := ItemOf(env.catalog, f, members).value;
      assert !IsBasic(f.type_) by { assert Tame(grown.catalog); }
      NumbersFail(env, t, f, members[f.name := item], item, f.default_.value, tag, depth, used);
    }
  }

  lemma NumbersFail(env: Env, t: Type, f: Field, members: Members, item: J.Json, given: J.Json, tag: Option<J.Json>,
                    depth: nat, used: nat)
    requires depth <= MAX_DEPTH && f.type_ !in env.catalog && !IsBasic(f.type_) && given.Num?
    requires item == given || (f.type_ == Interface && item == J.Str(ALL) && given == J.Num(EVERY))
    requires WriteField(env, t, f, members, item, tag, depth, used).Good?
    ensures f.type_ == Interface && given == J.Num(EVERY)
  {
    hide Ascii, ArrayCount, Chosen, WriteItems;
    if !IsArray(f) {
      var chosen := Chosen(t, f, members, tag).value;
      assert Write(env, f.type_, item, chosen, depth + 1, used).Good?;
      LeafOrNothing(env, f.type_, item, chosen, depth + 1, used);
    }
  }

  lemma LeafOrNothing(env: Env, t: Type, v: J.Json, tag: Option<J.Json>, depth: nat, used: nat)
    requires depth <= MAX_DEPTH + 1 && t !in env.catalog && !IsBasic(t) && Write(env, t, v, tag, depth, used).Good?
    ensures (t == Interface || t == Ip4 || t == Ip6 || t == Mac) && v.Str?
  {
    hide Ascii;
  }

  lemma {:induction false} WriteFieldsStay(env: Env, grown: Env, t: Type, fields: seq<Field>, i: nat, members: Members,
                                           tag: Option<J.Json>, depth: nat, used: nat)
    requires Grown(env.catalog, grown.catalog) && grown.host == env.host && depth <= MAX_DEPTH
    requires i <= |fields| && WriteFields(env, t, fields, i, members, tag, depth, used).Good?
    ensures WriteFields(grown, t, fields, i, members, tag, depth, used)
         == WriteFields(env, t, fields, i, members, tag, depth, used)
    decreases MAX_DEPTH + 1 - depth, 3, |fields| - i
  {
    hide WriteField, WriteFields, ItemOf, Grown;
    if i == |fields| {
      NoFields(env, t, fields, members, tag, depth, used);
      NoFields(grown, t, fields, members, tag, depth, used);
    } else {
      OneField(env, t, fields, i, members, tag, depth, used);
      OneField(grown, t, fields, i, members, tag, depth, used);
      var item := ItemOf(env.catalog, fields[i], members).value;
      var more := members[fields[i].name := item];
      var b := WriteField(env, t, fields[i], more, item, tag, depth, used).value;
      ItemStays(env, grown, t, fields[i], members, tag, depth, used);
      WriteFieldStays(env, grown, t, fields[i], more, item, tag, depth, used);
      WriteFieldsStay(env, grown, t, fields, i + 1, more, tag, depth, used + |b|);
    }
  }

  lemma {:induction false} WriteFieldStays(env: Env, grown: Env, t: Type, f: Field, members: Members, item: J.Json,
                                           tag: Option<J.Json>, depth: nat, used: nat)
    requires Grown(env.catalog, grown.catalog) && grown.host == env.host && depth <= MAX_DEPTH
    requires WriteField(env, t, f, members, item, tag, depth, used).Good?
    ensures WriteField(grown, t, f, members, item, tag, depth, used)
         == WriteField(env, t, f, members, item, tag, depth, used)
    decreases MAX_DEPTH + 1 - depth, 2, 0
  {
    hide Write, WriteItems, WriteField, ArrayCount, Chosen, Grown;
    if FixedText(f) {
      TextField(env, grown, t, f, members, item, tag, depth, used);
    } else if IsArray(f) {
      ArrayField(env, t, f, members, item, tag, depth, used);
      ArrayField(grown, t, f, members, item, tag, depth, used);
      WriteItemsStay(env, grown, f.type_, item.items, depth + 1, used);
    } else {
      ScalarField(env, t, f, members, item, tag, depth, used);
      ScalarField(grown, t, f, members, item, tag, depth, used);
      WriteStays(env, grown, f.type_, item, Chosen(t, f, members, tag).value, depth + 1, used);
    }
  }

  lemma TextField(env: Env, grown: Env, t: Type, f: Field, members: Members, item: J.Json, tag: Option<J.Json>,
                  depth: nat, used: nat)
    requires depth <= MAX_DEPTH && FixedText(f)
    ensures WriteField(grown, t, f, members, item, tag, depth, used)
         == WriteField(env, t, f, members, item, tag, depth, used)
  {
  }

  lemma ArrayField(env: Env, t: Type, f: Field, members: Members, item: J.Json, tag: Option<J.Json>, depth: nat,
                   used: nat)
    requires depth <= MAX_DEPTH && IsArray(f)
    ensures var count := ArrayCount(f, members);
            WriteField(env, t, f, members, item, tag, depth, used)
            == if count.Bad? then Bad(count.why)
               else if !item.Arr? || |item.items| != count.value then Bad(InvalidParams)
               else WriteItems(env, f.type_, item.items, depth + 1, used)
  {
    hide WriteItems, ArrayCount;
  }

  lemma ScalarField(env: Env, t: Type, f: Field, members: Members, item: J.Json, tag: Option<J.Json>, depth: nat,
                    used: nat)
    requires depth <= MAX_DEPTH && !FixedText(f) && !IsArray(f)
    ensures var chosen := Chosen(t, f, members, tag);
            WriteField(env, t, f, members, item, tag, depth, used)
            == if chosen.Bad? then Bad(chosen.why) else Write(env, f.type_, item, chosen.value, depth + 1, used)
  {
    hide Write, Chosen;
  }

  // ---- Reading ----

  /** What could be read before is read as the same value. */
  lemma {:induction false} ReadStays(env: Env, grown: Env, t: Type, b: Text, tag: Option<J.Json>, depth: nat)
    requires Grown(env.catalog, grown.catalog) && grown.host == env.host && depth <= MAX_DEPTH + 1
    requires Read(env, t, b, tag, depth).Good?
    ensures Read(grown, t, b, tag, depth) == Read(env, t, b, tag, depth)
    decreases MAX_DEPTH + 1 - depth, 5, 0
  {
    hide IsLeaf, ReadLeaf, ReadDefined;
    if !IsLeaf(t) {
      ReadDefinedStays(env, grown, t, env.catalog[t], b, tag, depth);
    }
  }

  lemma {:induction false} ReadDefinedStays(env: Env, grown: Env, t: Type, d: Definition, b: Text, tag: Option<J.Json>,
                                            depth: nat)
    requires Grown(env.catalog, grown.catalog) && grown.host == env.host && depth <= MAX_DEPTH
    requires ReadDefined(env, t, d, b, tag, depth).Good?
    ensures ReadDefined(grown, t, d, b, tag, depth) == ReadDefined(env, t, d, b, tag, depth)
    decreases MAX_DEPTH + 1 - depth, 4, 0
  {
    hide Read, ReadItems, ReadUnion, ReadFields, Symbolic, Projected, Counts;
    match d
    case Alias(base, None) => ReadStays(env, grown, base, b, tag, depth + 1);
    case Alias(base, Some(n)) => ReadItemsStay(env, grown, base, n, b, depth + 1);
    case Enumeration(base, _, _) => ReadStays(env, grown, base, b, None, depth + 1);
    case Union(fields) => ReadUnionStays(env, grown, t, fields, b, tag, depth);
    case Struct(fields) => ReadFieldsStay(env, grown, t, fields, 0, map[], b, tag, depth);
  }

  lemma {:induction false} ReadItemsStay(env: Env, grown: Env, t: Type, n: nat, b: Text, depth: nat)
    requires Grown(env.catalog, grown.catalog) && grown.host == env.host && depth <= MAX_DEPTH + 1
    requires ReadItems(env, t, n, b, depth).Good?
    ensures ReadItems(grown, t, n, b, depth) == ReadItems(env, t, n, b, depth)
    decreases MAX_DEPTH + 1 - depth, 6, n
  {
    hide Read, Grown;
    if n > 0 {
      ReadStays(env, grown, t, b, None, depth);
      ReadItemsStay(env, grown, t, n - 1, Read(env, t, b, None, depth).value.1, depth);
    }
  }

  lemma ReadUnionStays(env: Env, grown: Env, t: Type, fields: seq<Field>, b: Text, tag: Option<J.Json>, depth: nat)
    requires Grown(env.catalog, grown.catalog) && grown.host == env.host && depth <= MAX_DEPTH
    requires ReadUnion(env, t, fields, b, tag, depth).Good?
    ensures ReadUnion(grown, t, fields, b, tag, depth) == ReadUnion(env, t, fields, b, tag, depth)
    decreases MAX_DEPTH + 1 - depth, 3, 0
  {
    hide Read, FixedSize, Variable, MemberFor, Grown;
    UnionStays(env.catalog, grown.catalog, t);
    ReadStays(env, grown, MemberFor(fields, tag).value.type_, b[..FixedSize(env.catalog, t, 0)], None, depth + 1);
  }

  lemma {:induction false} ReadFieldsStay(env: Env, grown: Env, t: Type, fields: seq<Field>, i: nat, members: Members,
                                          b: Text, tag: Option<J.Json>, depth: nat)
    requires Grown(env.catalog, grown.catalog) && grown.host == env.host && depth <= MAX_DEPTH
    requires i <= |fields| && ReadFields(env, t, fields, i, members, tag, b, depth).Good?
    ensures ReadFields(grown, t, fields, i, members, tag, b, depth)
         == ReadFields(env, t, fields, i, members, tag, b, depth)
    decreases MAX_DEPTH + 1 - depth, 3, |fields| - i
  {
    hide ReadField, Grown;
    if i < |fields| {
      ReadFieldStays(env, grown, t, fields[i], members, b, tag, depth);
      var (item, rest) := ReadField(env, t, fields[i], members, tag, b, depth).value;
      ReadFieldsStay(env, grown, t, fields, i + 1, members[fields[i].name := item], rest, tag, depth);
    }
  }

  lemma {:induction false} ReadFieldStays(env: Env, grown: Env, t: Type, f: Field, members: Members, b: Text,
                                          tag: Option<J.Json>, depth: nat)
    requires Grown(env.catalog, grown.catalog) && grown.host == env.host && depth <= MAX_DEPTH
    requires ReadField(env, t, f, members, tag, b, depth).Good?
    ensures ReadField(grown, t, f, members, tag, b, depth) == ReadField(env, t, f, members, tag, b, depth)
    decreases MAX_DEPTH + 1 - depth, 2, 0
  {
    hide Read, ReadItems, ArrayCount, Chosen, UpToNul, Grown;
    if FixedText(f) {
    } else if IsArray(f) {
      ReadItemsStay(env, grown, f.type_, ArrayCount(f, members).value, b, depth + 1);
    } else {
      ReadStays(env, grown, f.type_, b, Chosen(t, f, members, tag).value, depth + 1);
    }
  }

  // ---- Together ----

  /** Every size that was known, every value that could be encoded and every payload that
      could be decoded is as before. */
  ghost predicate Kept(env: Env, grown: Env) {
    && (forall t :: FixedSize(env.catalog, t, 0) >= 0 ==>
          FixedSize(grown.catalog, t, 0) == FixedSize(env.catalog, t, 0))
    && (forall t, v :: Encode(env, t, v).Good? ==> Encode(grown, t, v) == Encode(env, t, v))
    && (forall t, b :: Decode(env, t, b).Good? ==> Decode(grown, t, b) == Decode(env, t, b))
  }

  lemma GrownIsKept(env: Env, grown: Env)
    requires Grown(env.catalog, grown.catalog) && grown.host == env.host
    ensures Kept(env, grown)
  {
    hide FixedSize, Write, Read, Grown;
    forall t | FixedSize(env.catalog, t, 0) >= 0
      ensures FixedSize(grown.catalog, t, 0) == FixedSize(env.catalog, t, 0)
    {
      SizeStays(env.catalog, grown.catalog, t, 0);
    }
    forall t, v | Encode(env, t, v).Good? ensures Encode(grown, t, v) == Encode(env, t, v) {
      WriteStays(env, grown, t, v, None, 0, 0);
    }
    forall t, b | Decode(env, t, b).Good? ensures Decode(grown, t, b) == Decode(env, t, b) {
      ReadStays(env, grown, t, b, None, 0);
    }
  }

  /** After any further module, loaded in full or in part, nothing has changed, unless a
      message that is not harmless took the name of a basic type. */
  lemma GrowthIsConservative(env: Env, methods: map<Text, Method>, entries: seq<Entry>)
    requires Tame(Loaded(State(env.catalog, methods), entries).0.types)
    ensures Kept(env, Env(Loaded(State(env.catalog, methods), entries).0.types, env.host))
  {
    hide Loaded, Tame, Kept;
    LoadingExtends(State(env.catalog, methods), entries);
    GrownIsKept(env, Env(Loaded(State(env.catalog, methods), entries).0.types, env.host));
  }

  /** Loading leaves a tame catalog when what it defines under basic names is harmless. */
  lemma {:induction false} LoadingIsTame(s: State, entries: seq<Entry>)
    requires Tame(s.types)
    requires forall i :: 0 <= i < |entries| && entries[i].Defines? && IsBasic(entries[i].name) ==>
               Harmless(entries[i].name, entries[i].definition)
    ensures Tame(Loaded(s, entries).0.types)
    decreases |entries|
  {
    hide Harmless, IsBasic;
    if entries != [] {
      var rest := entries[1..];
      assert forall i :: 0 <= i < |rest| ==> rest[i] == entries[i + 1];
      LoadingIsTame(Taken(s, entries[0]).0, rest);
    }
  }

  // ---- What a harmful name breaks ----

  /** A value of a basic type other than a text that can be encoded. */
  predicate BasicValue(h: Host, t: Type, v: J.Json) { IsBasic(t) && IsFixed(t) && WriteFixed(h, t, v).Good? }

  const TOP := Named([97])

  /** The `k`th of a chain of aliases. */
  function Link(k: nat): Type
    requires k <= MAX_DEPTH
  {
    Named([98, k as byte])
  }

  function Member(): Field { Field([99], Link(1), None, None, None, None, None) }

  /** What the `k`th link stands for: the next one, or at last the type. */
  function Follow(t: Type, k: nat): Type
    requires k < MAX_DEPTH
  {
    if k == MAX_DEPTH - 1 then t else Link(k + 1)
  }

  function Links(t: Type, k: nat): Catalog
    requires k <= MAX_DEPTH
    decreases MAX_DEPTH - k
  {
    if k == MAX_DEPTH then map[] else Links(t, k + 1)[Link(k) := Alias(Follow(t, k), None)]
  }

  /** A union whose one member leads to the type through as many aliases as may be nested. */
  function Chain(t: Type): Catalog { Links(t, 1)[TOP := Union([Member()])] }

  lemma {:induction false} LinksHold(t: Type, first: nat, k: nat)
    requires first <= k < MAX_DEPTH
    ensures Link(k) in Links(t, first) && Links(t, first)[Link(k)] == Alias(Follow(t, k), None)
    decreases MAX_DEPTH - first
  {
    hide Follow;
    if first < k {
      LinksHold(t, first + 1, k);
    }
  }

  lemma {:induction false} LinksAreNamed(t: Type, first: nat)
    requires first <= MAX_DEPTH
    ensures forall u :: u in Links(t, first) ==> u.Named?
    decreases MAX_DEPTH - first
  {
    hide Follow;
    if first < MAX_DEPTH {
      LinksAreNamed(t, first + 1);
    }
  }

  lemma ChainLinks(t: Type, k: nat)
    requires 1 <= k < MAX_DEPTH
    ensures Link(k) in Chain(t) && Chain(t)[Link(k)] == Alias(Follow(t, k), None)
    ensures TOP in Chain(t) && Chain(t)[TOP] == Union([Member()])
    ensures forall u :: u in Chain(t) ==> u.Named?
  {
    hide Links, Follow;
    LinksHold(t, 1, k);
    LinksAreNamed(t, 1);
    assert |TOP.name| != |Link(k).name|;
  }

  lemma FollowEnds(t: Type, k: nat)
    requires k < MAX_DEPTH
    ensures Follow(t, k) == if k + 1 == MAX_DEPTH then t else Link(k + 1)
  {
  }

  /** Below the chain, sizes and encodings are those of the type at its end. */
  lemma {:induction false} ThroughLinks(env: Env, t: Type, v: J.Json, tag: Option<J.Json>, k: nat)
    requires 1 <= k <= MAX_DEPTH && IsBasic(t) && t != Characters && env.catalog == Chain(t)
    ensures var u := if k == MAX_DEPTH then t else Link(k);
            && FixedSize(env.catalog, u, k) == Width(t) && !Variable(env.catalog, u, k)
            && Write(env, u, v, tag, k, 0) == Write(env, t, v, tag, MAX_DEPTH, 0)
    decreases MAX_DEPTH - k
  {
    hide Chain, Write, FixedSize, Variable, Follow, Link;
    if k == MAX_DEPTH {
      ChainLinks(t, 1);
      BasicIsKnown(env.catalog, t, k);
    } else {
      ChainLinks(t, k);
      FollowEnds(t, k);
      ThroughLinks(env, t, v, tag, k + 1);
      LinkSize(env.catalog, Link(k), Follow(t, k), k);
      LinkWrites(env, Link(k), Follow(t, k), v, tag, k);
    }
  }

  lemma BasicIsKnown(c: Catalog, t: Type, k: nat)
    requires k <= MAX_DEPTH && IsBasic(t) && t != Characters && t !in c
    ensures FixedSize(c, t, k) == Width(t) && !Variable(c, t, k)
  {
    hide Width;
  }

  lemma LinkSize(c: Catalog, u: Type, next: Type, k: nat)
    requires u.Named? && k < MAX_DEPTH && u in c && c[u] == Alias(next, None)
    ensures FixedSize(c, u, k) == (if FixedSize(c, next, k + 1) < 0 then -1 else FixedSize(c, next, k + 1))
    ensures Variable(c, u, k) == Variable(c, next, k + 1)
  {
    hide FieldSizes, VariableField;
    assert FixedSize(c, u, k) == DefinedSize(c, c[u], k);
  }

  lemma LinkWrites(env: Env, u: Type, next: Type, v: J.Json, tag: Option<J.Json>, k: nat)
    requires u.Named? && k < MAX_DEPTH && u in env.catalog && env.catalog[u] == Alias(next, None)
    ensures Write(env, u, v, tag, k, 0) == Write(env, next, v, tag, k + 1, 0)
  {
    hide WriteItems, WriteUnion, WriteFields, WriteLeaf, Numeric, Lifted, Prepared;
    assert Write(env, u, v, tag, k, 0) == WriteDefined(env, u, env.catalog[u], v, tag, k, 0);
  }

  /** Before: the union is as large as the basic type and encodes its values. */
  lemma ChainEncodes(h: Host, t: Type, v: J.Json)
    requires Consistent(h) && BasicValue(h, t, v)
    ensures Encode(Env(Chain(t), h), TOP, J.Obj(map[[99] := v])).Good?
  {
    hide Chain, WriteUnion, FixedSize, Variable, Consistent, Lifted, BasicValue;
    var env := Env(Chain(t), h);
    BasicIsNoText(h, t, v);
    ChainLinks(t, 1);
    ThroughLinks(env, t, v, None, 1);
    BasicWritten(env, t, v);
    UnionSize(env.catalog, Width(t));
    OneMemberWritten(env, v, Width(t));
    TopIsUnion(env, J.Obj(map[[99] := v]));
  }

  lemma BasicIsNoText(h: Host, t: Type, v: J.Json)
    requires BasicValue(h, t, v)
    ensures IsBasic(t) && t != Characters
  {
    hide WriteFixed;
  }

  lemma TopIsUnion(env: Env, v: J.Json)
    requires TOP in env.catalog && env.catalog[TOP] == Union([Member()])
    ensures Encode(env, TOP, v) == WriteUnion(env, TOP, [Member()], v, None, 0, 0)
  {
    hide WriteUnion;
    assert Write(env, TOP, v, None, 0, 0) == WriteDefined(env, TOP, env.catalog[TOP], v, None, 0, 0);
  }

  lemma BasicWritten(env: Env, t: Type, v: J.Json)
    requires Consistent(env.host) && BasicValue(env.host, t, v)
    ensures Width(t) <= 8 && Write(env, t, v, None, MAX_DEPTH, 0).Good?
  {
    hide WriteFixed, ReadFixed, CanonFixed, Consistent;
    FixedRoundTrip(env.host, t, v);
  }

  lemma UnionSize(c: Catalog, size: nat)
    requires TOP in c && c[TOP] == Union([Member()]) && size <= 8
    requires FixedSize(c, Link(1), 1) == size && !Variable(c, Link(1), 1)
    ensures FixedSize(c, TOP, 0) == size && !Variable(c, TOP, 0)
  {
    var fields := [Member()];
    assert FieldSizes(c, fields, 0, true, 0) == 0;
    assert FieldSize(c, fields[0], 0) == size;
    assert FieldSizes(c, fields, 1, true, 0) == size;
    assert FixedSize(c, TOP, 0) == DefinedSize(c, c[TOP], 0);
  }

  lemma OneMemberWritten(env: Env, v: J.Json, size: nat)
    requires FixedSize(env.catalog, TOP, 0) == size <= 8 && !Variable(env.catalog, TOP, 0)
    requires Write(env, Link(1), v, None, 1, 0).Good?
    ensures WriteUnion(env, TOP, [Member()], J.Obj(map[[99] := v]), None, 0, 0).Good?
  {
    hide Write, Variable, FixedSize;
    var m: Members := map[[99] := v];
    assert m.Keys == {[99]};
    assert |m| == |m.Keys| == 1;
    assert Sorted(m.Keys)[0] in m.Keys;
    assert MemberNamed([Member()], [99]) == Some(Member());
  }

  /** After: the type at the end of the chain varies, so every link and the union do. */
  lemma {:induction false} LinksVary(g: Catalog, t: Type, k: nat)
    requires 1 <= k <= MAX_DEPTH && Extends(Chain(t), g) && t in g && IsBasic(t) && g[t].Struct?
    requires !OnlyFixedTexts(g[t].fields)
    ensures Variable(g, if k == MAX_DEPTH then t else Link(k), k)
    decreases MAX_DEPTH - k
  {
    hide Chain, Width, Follow, Link;
    if k == MAX_DEPTH {
      var i :| 0 <= i < |g[t].fields| && !FixedText(g[t].fields[i]);
      assert VariableField(g, g[t].fields[i], k);
    } else {
      ChainLinks(t, k);
      FollowEnds(t, k);
      LinksVary(g, t, k + 1);
    }
  }

  lemma ChainBreaks(h: Host, g: Catalog, t: Type, v: J.Json)
    requires Extends(Chain(t), g) && t in g && IsBasic(t) && g[t].Struct? && !OnlyFixedTexts(g[t].fields)
    ensures Encode(Env(g, h), TOP, v).Bad?
  {
    hide Chain, WriteUnion;
    ChainLinks(t, 1);
    LinksVary(g, t, 1);
    assert VariableField(g, [Member()][0], 0);
    TopIsUnion(Env(g, h), v);
    assert WriteUnion(Env(g, h), TOP, [Member()], v, None, 0, 0).Bad? by { VaryingUnion(Env(g, h), v); }
  }

  lemma VaryingUnion(env: Env, v: J.Json)
    requires Variable(env.catalog, TOP, 0)
    ensures WriteUnion(env, TOP, [Member()], v, None, 0, 0).Bad?
  {
    hide Write, FixedSize, Variable;
  }

  /** Every message that is not harmless breaks something: in whatever way it is loaded over
      the chain that ends in its name, a value that was encoded before is refused. */
  lemma HarmfulNamesBreak(h: Host, t: Type, v: J.Json, methods: map<Text, Method>, entries: seq<Entry>)
    requires Consistent(h) && BasicValue(h, t, v)
    requires var g := Loaded(State(Chain(t), methods), entries).0.types; t in g && g[t].Struct? && !Harmless(t, g[t])
    ensures !Kept(Env(Chain(t), h), Env(Loaded(State(Chain(t), methods), entries).0.types, h))
  {
    hide Chain, Loaded, Encode, Decode, FixedSize, BasicValue;
    BasicIsNoText(h, t, v);
    var g := Loaded(State(Chain(t), methods), entries).0.types;
    LoadingExtends(State(Chain(t), methods), entries);
    ChainEncodes(h, t, v);
    ChainBreaks(h, g, t, J.Obj(map[[99] := v]));
  }

  /** A message under the name of a basic type keeps everything of every catalog that did
      not have it exactly when it is harmless. */
  lemma HarmlessExactly(h: Host, t: Type, v: J.Json, d: Definition)
    requires Consistent(h) && IsBasic(t) && d.Struct? && (t != Characters ==> BasicValue(h, t, v))
    ensures (forall c: Catalog :: Tame(c) && t !in c ==> Kept(Env(c, h), Env(c[t := d], h))) <==> Harmless(t, d)
  {
    hide Kept, Encode, Decode, FixedSize, Chain, Consistent, BasicValue;
    if Harmless(t, d) {
      forall c: Catalog | Tame(c) && t !in c ensures Kept(Env(c, h), Env(c[t := d], h)) {
        GrownIsKept(Env(c, h), Env(c[t := d], h));
      }
    } else {
      var c := Chain(t);
      ChainLinks(t, 1);
      assert Tame(c) && t !in c;
      var entries := [Defines(t, d)];
      assert entries[1..] == [];
      assert Loaded(State(c, map[]), entries).0.types == c[t := d];
      HarmfulNamesBreak(h, t, v, map[], entries);
    }
  }
}
