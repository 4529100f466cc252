/** The canonical form of a value, and which catalogs the codec serves without loss. */
module Canonical {
  import opened Text
  import opened Catalogs
  import opened Leaves
  import opened Codec
  import opened SymbolTables
  import opened CodecSizes
  import J = JsonText

  // ---- The canonical form ----

  /** Defaults filled in, flags in key order, addresses and numbers as the platform spells
      them, lengths of counted arrays left out. It does not look at any bytes. */
  function Canon(env: Env, t: Type, v: J.Json, depth: nat): J.Json
    requires depth <= MAX_DEPTH + 1
    decreases MAX_DEPTH + 1 - depth, 5, 0
  {
    if depth > MAX_DEPTH then v
    else if IsLeaf(t) then CanonLeaf(env.host, t, v)
    else if t !in env.catalog then v
    else CanonDefined(env, t, env.catalog[t], v, depth)
  }

  function CanonLeaf(h: Host, t: Type, v: J.Json): J.Json
    requires IsLeaf(t)
  {
    if t == Characters then (if v.Str? then J.Str(Kept(v.s)) else v) else CanonFixed(h, t, v)
  }

  function CanonDefined(env: Env, t: Type, d: Definition, v: J.Json, depth: nat): J.Json
    requires depth <= MAX_DEPTH
    decreases MAX_DEPTH + 1 - depth, 4, 0
  {
    match d
    case Alias(base, None) => Canon(env, base, v, depth + 1)
    case Alias(base, Some(_)) => if v.Arr? then J.Arr(CanonItems(env, base, v.items, depth + 1)) else v
    case Enumeration(_, values, flags) => CanonSymbols(values, flags, v)
    case Union(fields) => CanonUnion(env, fields, v, depth)
    case Struct(fields) => Flattened(t, v, Whole(env, fields, |fields|, Start(t, fields, v), depth) - Counts(fields))
  }

  /** What the caller's value looks like to the field loop. */
  function Start(t: Type, fields: seq<Field>, v: J.Json): Members {
    match Lifted(t, v)
    case Bad(_) => map[]
    case Good(lifted) =>
      if !lifted.Obj? then map[] else (match Prepared(fields, lifted.m) case Bad(_) => map[] case Good(m) => m)
  }

  function Flattened(t: Type, v: J.Json, members: Members): J.Json {
    match Projected(t, members) case Good(j) => j case Bad(_) => v
  }

  function CanonItems(env: Env, t: Type, items: seq<J.Json>, depth: nat): (c: seq<J.Json>)
    requires depth <= MAX_DEPTH + 1
    ensures |c| == |items|
    decreases MAX_DEPTH + 1 - depth, 6, |items|
  {
    if items == [] then [] else [Canon(env, t, items[0], depth)] + CanonItems(env, t, items[1..], depth)
  }

  function CanonUnion(env: Env, fields: seq<Field>, v: J.Json, depth: nat): J.Json
    requires depth <= MAX_DEPTH
    decreases MAX_DEPTH + 1 - depth, 3, 0
  {
    if !v.Obj? || |v.m| != 1 then v
    else
      var name := Sorted(v.m.Keys)[0];
      match MemberNamed(fields, name)
      case None => v
      case Some(member) => J.Obj(map[name := Canon(env, member.type_, v.m[name], depth + 1)])
  }

  function CanonField(env: Env, f: Field, item: J.Json, depth: nat): J.Json
    requires depth <= MAX_DEPTH
    decreases MAX_DEPTH + 1 - depth, 2, 0
  {
    if FixedText(f) then item
    else if IsArray(f) then (if item.Arr? then J.Arr(CanonItems(env, f.type_, item.items, depth + 1)) else item)
    else Canon(env, f.type_, item, depth + 1)
  }

  /** The first `n` fields in canonical form, lengths included. */
  function Whole(env: Env, fields: seq<Field>, n: nat, start: Members, depth: nat): Members
    requires n <= |fields| && depth <= MAX_DEPTH
    decreases MAX_DEPTH + 1 - depth, 3, n
  {
    if n == 0 then map[]
    else
      var before := Whole(env, fields, n - 1, start, depth);
      match ItemOf(env.catalog, fields[n - 1], start)
      case Bad(_) => before
      case Good(item) => before[fields[n - 1].name := CanonField(env, fields[n - 1], item, depth)]
  }

  // ---- Values whose canonical form can be written again ----

  /** The length of a prefix also suits the address the platform sees: of a text with a
      NUL that ends before it. */
  predicate FitsFamily(m: Members) {
    ADDRESS in m && m[ADDRESS].Str? && LEN in m && m[LEN].Num? && m[LEN].n > 32 ==> J.COLON in UpToNul(m[ADDRESS].s)
  }

  /** So do the lengths of all prefixes in a value. */
  predicate Settled(env: Env, t: Type, v: J.Json, depth: nat)
    requires depth <= MAX_DEPTH + 1
    decreases MAX_DEPTH + 1 - depth, 5, 0
  {
    depth <= MAX_DEPTH && !IsLeaf(t) && t in env.catalog ==> SettledDefined(env, t, env.catalog[t], v, depth)
  }

  predicate SettledDefined(env: Env, t: Type, d: Definition, v: J.Json, depth: nat)
    requires depth <= MAX_DEPTH
    decreases MAX_DEPTH + 1 - depth, 4, 0
  {
    match d
    case Alias(base, None) => Settled(env, base, v, depth + 1)
    case Alias(base, Some(_)) => v.Arr? ==> SettledItems(env, base, v.items, depth + 1)
    case Enumeration(_, _, _) => true
    case Union(fields) => SettledUnion(env, fields, v, depth)
    case Struct(fields) =>
      && (IsPrefix(t) ==> FitsFamily(Start(t, fields, v)))
      && SettledFields(env, fields, 0, Start(t, fields, v), depth)
  }

  predicate SettledItems(env: Env, t: Type, items: seq<J.Json>, depth: nat)
    requires depth <= MAX_DEPTH + 1
    decreases MAX_DEPTH + 1 - depth, 6, |items|
  {
    items != [] ==> Settled(env, t, items[0], depth) && SettledItems(env, t, items[1..], depth)
  }

  predicate SettledUnion(env: Env, fields: seq<Field>, v: J.Json, depth: nat)
    requires depth <= MAX_DEPTH
    decreases MAX_DEPTH + 1 - depth, 3, 0
  {
    v.Obj? && |v.m| == 1 ==>
      var name := Sorted(v.m.Keys)[0];
      MemberNamed(fields, name).Some? ==> Settled(env, MemberNamed(fields, name).value.type_, v.m[name], depth + 1)
  }

  predicate SettledField(env: Env, f: Field, item: J.Json, depth: nat)
    requires depth <= MAX_DEPTH
    decreases MAX_DEPTH + 1 - depth, 2, 0
  {
    if FixedText(f) then true
    else if IsArray(f) then item.Arr? ==> SettledItems(env, f.type_, item.items, depth + 1)
    else Settled(env, f.type_, item, depth + 1)
  }

  predicate SettledFields(env: Env, fields: seq<Field>, i: nat, start: Members, depth: nat)
    requires i <= |fields| && depth <= MAX_DEPTH
    decreases MAX_DEPTH + 1 - depth, 3, |fields| - i
  {
    i < |fields| ==>
      && (ItemOf(env.catalog, fields[i], start).Good? ==>
            SettledField(env, fields[i], ItemOf(env.catalog, fields[i], start).value, depth))
      && SettledFields(env, fields, i + 1, start, depth)
  }

  // ---- Well-formed catalogs ----

  /** Types that can only be read with the value of a discriminator at hand: unions, and
      what stands for one through at most so many aliases. */
  predicate TaggedWithin(c: Catalog, t: Type, n: nat)
    decreases n
  {
    && !IsLeaf(t)
    && (t == FibPathNh
        || (t in c
            && (c[t].Union? || (c[t].Alias? && c[t].length.None? && n > 0 && TaggedWithin(c, c[t].base, n - 1)))))
  }

  predicate Tagged(c: Catalog, t: Type) { TaggedWithin(c, t, MAX_DEPTH + 1) }

  /** The type is the next hop of a FIB path, through at most so many aliases. */
  predicate IsNextHop(c: Catalog, t: Type, n: nat)
    decreases n
  {
    t == FibPathNh || (t in c && c[t].Alias? && n > 0 && IsNextHop(c, c[t].base, n - 1))
  }

  lemma {:induction false} TaggedFurther(c: Catalog, t: Type, n: nat, m: nat)
    requires n <= m && TaggedWithin(c, t, n)
    ensures TaggedWithin(c, t, m)
    decreases n
  {
    hide IsLeaf;
    if t != FibPathNh && !c[t].Union? {
      TaggedFurther(c, c[t].base, n - 1, m - 1);
    }
  }

  /** A scalar field whose canonical form is the value itself. */
  predicate Steady(c: Catalog, f: Field) {
    && f.length.None?
    && (IsInt(f.type_) || f.type_ == Boolean
        || (!IsLeaf(f.type_) && f.type_ in c && c[f.type_].Enumeration? && !c[f.type_].flags))
  }

  predicate IsCounter(f: Field) {
    (f.type_ == U8 || f.type_ == U16 || f.type_ == U32) && f.length.None? && f.count.None?
  }

  /** The member a union below this field is chosen by. */
  function KeyOf(within: Type, f: Field): Option<Text> {
    if within == FibPath && f.name == NH then Some(PROTO) else Discriminator(f)
  }

  predicate ChosenByTag(within: Type, f: Field) { within == FibPathNh && f.name == ADDRESS }

  predicate Earlier(fields: seq<Field>, i: nat, j: nat, name: Text)
    requires i < |fields|
  {
    j < i && fields[j].name == name
  }

  ghost predicate GoodField(c: Catalog, within: Type, fields: seq<Field>, i: nat)
    requires i < |fields|
  {
    var f := fields[i];
    && (f.count.Some? ==>
          && IsArray(f) && f.length == Some(0)
          && exists j: nat :: Earlier(fields, i, j, f.count.value) && IsCounter(fields[j]))
    && (Tagged(c, f.type_) ==> !IsArray(f) && (KeyOf(within, f).Some? || ChosenByTag(within, f)))
    && (!FixedText(f) && !IsArray(f) && !ChosenByTag(within, f) && KeyOf(within, f).Some? ==>
          exists j: nat :: Earlier(fields, i, j, KeyOf(within, f).value) && Steady(c, fields[j]))
  }

  ghost predicate GoodFields(c: Catalog, within: Type, fields: seq<Field>) {
    && (forall i, j :: 0 <= i < j < |fields| ==> fields[i].name != fields[j].name)
    && (forall i :: 0 <= i < |fields| ==> GoodField(c, within, fields, i))
  }

  ghost predicate GoodMembers(c: Catalog, fields: seq<Field>) {
    && (forall i, j :: 0 <= i < j < |fields| ==> fields[i].name != fields[j].name && fields[i].case_ != fields[j].case_)
    && (forall i :: 0 <= i < |fields| ==>
          fields[i].length.None? && fields[i].count.None? && fields[i].case_.Some? && !Tagged(c, fields[i].type_))
  }

  ghost predicate GoodDefinition(c: Catalog, t: Type, d: Definition) {
    match d
    case Alias(base, length) => length.Some? ==> !Tagged(c, base)
    case Enumeration(base, values, flags) => GoodSymbols(base, values, flags)
    case Struct(fields) => GoodFields(c, t, fields) && (t == Address || IsPrefix(t) ==> GoodText(t, fields))
    case Union(fields) =>
      GoodMembers(c, fields) && t != Address && !IsPrefix(t) && (t == AddressUnion ==> GoodFamilies(fields))
  }

  /** An address is a family and a union of the two; a prefix an address and a length. */
  predicate GoodText(t: Type, fields: seq<Field>) {
    && |fields| == 2 && fields[0].length.None? && fields[1].length.None? && fields[0].count.None?
      && fields[1].count.None?
    && (if t == Address then fields[0].name == AF && fields[1].name == UN && fields[1].type_ == AddressUnion
        else fields[0].name == ADDRESS && fields[1].name == LEN && fields[1].type_ == U8
             && (fields[0].type_ == Address || fields[0].type_ == Ip4 || fields[0].type_ == Ip6))
  }

  predicate GoodFamilies(fields: seq<Field>) {
    forall i :: 0 <= i < |fields| ==>
      (fields[i].name == IP4 ==> fields[i].type_ == Ip4) && (fields[i].name == IP6 ==> fields[i].type_ == Ip6)
  }

  ghost predicate GoodCatalog(c: Catalog) {
    && NativeSizes(c)
    && (forall t :: t in c ==> GoodDefinition(c, t, c[t]))
    && (Address in c ==> c[Address].Struct? && AddressUnion in c && c[AddressUnion].Union?)
    && (forall t :: t in c && IsPrefix(t) ==> c[t].Struct?)
  }

  lemma GoodIsWellSized(c: Catalog)
    requires GoodCatalog(c)
    ensures WellSized(c)
  {
    hide NativeSizes, GoodSymbols;
    forall t | t in c ensures SizedDefinition(c[t]) {
      assert GoodDefinition(c, t, c[t]);
      match c[t]
      case Struct(fields) =>
        forall i | 0 <= i < |fields| && fields[i].count.Some? ensures fields[i].length == Some(0) {
          assert GoodField(c, t, fields, i);
        }
      case Enumeration(base, values, flags) => SymbolsUnsigned(base, values, flags);
      case Alias(_, _) =>
      case Union(_) =>
    }
  }

  lemma SymbolsUnsigned(base: Type, values: map<Text, int>, flags: bool)
    requires GoodSymbols(base, values, flags)
    ensures IsUnsigned(base)
  {
  }
}
