/** The generated reply guard: the static layout of a variable reply gives its exact size. */
module ReplyLayouts {
  import opened Text
  import opened Catalogs
  import opened Integers
  import opened Leaves
  import opened Codec
  import opened CodecSizes
  import opened Canonical
  import opened RoundTrips
  import opened CodecRoundTrip
  import J = JsonText
  import SymbolTables

  /** What a reply ends in: nothing variable, or elements of a size that a number found
      under a path of member names counts. `None` as the element is one byte of a text. */
  datatype Tail = Refused | Settled | Trailing(path: seq<Text>, element: Option<Type>)

  predicate VariablePart(c: Catalog, f: Field) { !FixedText(f) && (f.length == Some(0) || Variable(c, f.type_, 0)) }

  /** The field that counts another: an earlier one of an unsigned type of up to 32 bits. */
  function CounterOf(fields: seq<Field>, i: nat, name: Text): Option<nat>
    requires i <= |fields|
  {
    if i == 0 then None
    else
      match CounterOf(fields, i - 1, name)
      case Some(j) => Some(j)
      case None =>
        var f := fields[i - 1];
        if f.name == name && (f.type_ == U8 || f.type_ == U16 || f.type_ == U32) then Some(i - 1) else None
  }

  lemma {:induction false} CounterIsEarlier(fields: seq<Field>, i: nat, name: Text)
    requires i <= |fields|
    ensures var j := CounterOf(fields, i, name);
            j.Some? ==> j.value < i && fields[j.value].name == name
                        && (fields[j.value].type_ == U8 || fields[j.value].type_ == U16 || fields[j.value].type_ == U32)
  {
    if i > 0 {
      CounterIsEarlier(fields, i - 1, name);
    }
  }

  /** Follows trailing members to a variable array or text. Only the last field may vary. */
  function ReplyTail(c: Catalog, t: Type, depth: nat): Tail
    requires depth <= MAX_DEPTH + 1
    decreases MAX_DEPTH + 1 - depth, 2, 0
  {
    if depth > MAX_DEPTH then Refused
    else if !Variable(c, t, 0) then Settled
    else if t !in c then Refused
    else
      match c[t]
      case Alias(base, None) => ReplyTail(c, base, depth + 1)
      case Struct(fields) => FieldsTail(c, fields, 0, depth)
      case _ => Refused
  }

  function FieldsTail(c: Catalog, fields: seq<Field>, i: nat, depth: nat): Tail
    requires i <= |fields| && depth <= MAX_DEPTH
    decreases MAX_DEPTH + 1 - depth, 1, |fields| - i
  {
    if i == |fields| then Refused
    else if !VariablePart(c, fields[i]) then FieldsTail(c, fields, i + 1, depth)
    else if i + 1 != |fields| then Refused
    else LastTail(c, fields, depth)
  }

  function LastTail(c: Catalog, fields: seq<Field>, depth: nat): Tail
    requires |fields| > 0 && depth <= MAX_DEPTH
    decreases MAX_DEPTH + 1 - depth, 0, 0
  {
    var i := |fields| - 1;
    var f := fields[i];
    if f.type_ == Characters then Trailing([f.name], None)
    else if f.length.None? then
      (match ReplyTail(c, f.type_, depth + 1)
       case Trailing(path, element) => Trailing([f.name] + path, element)
       case other => other)
    else if Variable(c, f.type_, 0) || f.count.None? || CounterOf(fields, i, f.count.value).None? then Refused
    else Trailing([f.count.value], Some(f.type_))
  }

  function ElementSize(c: Catalog, element: Option<Type>): int {
    if element.None? then 1 else FixedSize(c, element.value, 0)
  }

  /** The number as it stands in the native reply, at the place the layout gives it. */
  function NumberAt(b: Text, offset: int, width: nat): nat {
    if 0 <= offset && offset + width <= |b| then FromLittle(b[offset..offset + width]) else 0
  }

  function CountAt(c: Catalog, t: Type, b: Text, depth: nat): nat
    requires depth <= MAX_DEPTH + 1
    decreases MAX_DEPTH + 1 - depth, 1
  {
    if depth > MAX_DEPTH || t !in c then 0
    else
      match c[t]
      case Alias(base, None) => CountAt(c, base, b, depth + 1)
      case Struct(fields) => if fields == [] then 0 else LastCount(c, fields, b, depth)
      case _ => 0
  }

  function LastCount(c: Catalog, fields: seq<Field>, b: Text, depth: nat): nat
    requires |fields| > 0 && depth <= MAX_DEPTH
    decreases MAX_DEPTH + 1 - depth, 0
  {
    var i := |fields| - 1;
    var f, offset := fields[i], FieldSizes(c, fields, i, false, 0);
    if f.type_ == Characters then NumberAt(b, offset, 4)
    else if f.length.None? then (if 0 <= offset <= |b| then CountAt(c, f.type_, b[offset..], depth + 1) else 0)
    else if f.count.None? then 0
    else
      CounterIsEarlier(fields, i, f.count.value);
      match CounterOf(fields, i, f.count.value)
      case None => 0
      case Some(j) => NumberAt(b, FieldSizes(c, fields, j, false, 0), Width(fields[j].type_))
  }

  // ---- Where the fields lie ----

  /** If all fields before the `i`th one are of fixed size, the `i`th starts where the
      static sizes say, and what is in front of it is the encoding of those before. */
  lemma {:induction false} FieldAt(env: Env, t: Type, fields: seq<Field>, i: nat, k: nat, members: Members,
                                   tag: Option<J.Json>, depth: nat, used: nat)
           returns (at: Members, item: J.Json, before: nat)
    requires Consistent(env.host) && WellSized(env.catalog) && SizedDefinition(Struct(fields))
    requires i <= k < |fields| && depth <= MAX_DEPTH && FieldSizes(env.catalog, fields, k, false, 0) >= 0
    requires forall j :: i <= j < k ==> !VariablePart(env.catalog, fields[j])
    requires WriteFields(env, t, fields, i, members, tag, depth, used).Good?
    ensures WriteField(env, t, fields[k], at, item, tag, depth, before).Good? && fields[k].name in at
    ensures at[fields[k].name] == item
    ensures forall key :: key in members ==> key in at && at[key] == members[key]
    ensures k > i ==> fields[i].name in at && ItemOf(env.catalog, fields[i], members) == Good(at[fields[i].name])
    ensures var b := WriteFields(env, t, fields, i, members, tag, depth, used).value;
            var part := WriteField(env, t, fields[k], at, item, tag, depth, before).value;
            var offset := FieldSizes(env.catalog, fields, k, false, 0) - FieldSizes(env.catalog, fields, i, false, 0);
            && 0 <= offset && offset + |part| <= |b| && b[offset..offset + |part|] == part
            && (k + 1 == |fields| ==> |b| == offset + |part|)
    decreases k - i
  {
    hide WriteField, WriteFields, ItemOf, Consistent, WellSized, SizedDefinition, FieldSizes, VariablePart;
    var c := env.catalog;
    FirstGiven(env, t, fields, i, members, tag, depth, used);
    item := ItemOf(c, fields[i], members).value;
    var more := members[fields[i].name := item];
    OfFields(env, t, fields, i, members, item, tag, depth, used);
    var first := WriteField(env, t, fields[i], more, item, tag, depth, used).value;
    ItemIsThere(c, fields[i], members);
    if i == k {
      at, before := more, used;
      if k + 1 == |fields| {
        NoMoreFields(env, t, fields, more, tag, [], depth, used + |first|);
      }
    } else {
      at, item, before := FieldAt(env, t, fields, i + 1, k, more, tag, depth, used + |first|);
      FirstIsExact(env, t, fields, i, k, more, ItemOf(c, fields[i], members).value, tag, depth, used);
      var later := WriteFields(env, t, fields, i + 1, more, tag, depth, used + |first|).value;
      Behind(first, later, FieldSizes(c, fields, k, false, 0) - FieldSizes(c, fields, i + 1, false, 0),
             WriteField(env, t, fields[k], at, item, tag, depth, before).value);
    }
  }

  lemma FirstGiven(env: Env, t: Type, fields: seq<Field>, i: nat, members: Members, tag: Option<J.Json>, depth: nat,
                   used: nat)
    requires i < |fields| && depth <= MAX_DEPTH && WriteFields(env, t, fields, i, members, tag, depth, used).Good?
    ensures ItemOf(env.catalog, fields[i], members).Good?
  {
    hide ItemOf, WriteField;
  }

  lemma Behind(first: Text, later: Text, offset: int, part: Text)
    requires 0 <= offset && offset + |part| <= |later| && later[offset..offset + |part|] == part
    ensures var b := first + later; b[|first| + offset..|first| + offset + |part|] == part
  {
  }

  lemma ItemIsThere(c: Catalog, f: Field, members: Members)
    requires ItemOf(c, f, members).Good?
    ensures f.name in members ==> members[f.name] == ItemOf(c, f, members).value
  {
    hide PublicDefault;
  }

  lemma FirstIsExact(env: Env, t: Type, fields: seq<Field>, i: nat, k: nat, members: Members, item: J.Json,
                     tag: Option<J.Json>, depth: nat, used: nat)
    requires Consistent(env.host) && WellSized(env.catalog) && SizedDefinition(Struct(fields))
    requires i < k < |fields| && depth <= MAX_DEPTH && FieldSizes(env.catalog, fields, k, false, 0) >= 0
    requires !VariablePart(env.catalog, fields[i])
    requires WriteField(env, t, fields[i], members, item, tag, depth, used).Good?
    ensures FieldSizes(env.catalog, fields, i + 1, false, 0)
         == FieldSizes(env.catalog, fields, i, false, 0)
           + |WriteField(env, t, fields[i], members, item, tag, depth, used).value|
  {
    hide WriteField, Consistent, WellSized, Variable, FixedSize;
    var c := env.catalog;
    PrefixKnown(c, fields, i + 1, k, 0);
    PartExact(env, t, fields[i], members, item, tag, depth, used);
  }

  lemma PartExact(env: Env, t: Type, f: Field, members: Members, item: J.Json, tag: Option<J.Json>, depth: nat,
                  used: nat)
    requires Consistent(env.host) && WellSized(env.catalog) && (f.count.Some? ==> f.length == Some(0))
    requires depth <= MAX_DEPTH && !VariablePart(env.catalog, f) && FieldSize(env.catalog, f, 0) >= 0
    requires WriteField(env, t, f, members, item, tag, depth, used).Good?
    ensures |WriteField(env, t, f, members, item, tag, depth, used).value| == FieldSize(env.catalog, f, 0)
  {
    hide Write, WriteItems, Chosen, Consistent, WellSized, FixedSize, Variable;
    var c := env.catalog;
    if FixedText(f) {
    } else {
      TextVaries(c, 0);
      if FixedSize(c, f.type_, 1) < 0 {
        NoElements(FixedSize(c, f.type_, 1), 0, f.length);
      }
      SizeAnywhere(c, f.type_, 1, 0);
      if IsArray(f) {
        ItemsExact(env, f.type_, item.items, depth + 1, used, 0);
      } else {
        SizeIsExact(env, f.type_, item, Chosen(t, f, members, tag).value, depth + 1, used, 0);
      }
    }
  }

  // ---- The size of a reply ----

  /** The field the tail is found in is the last one, and none before it varies. */
  lemma {:induction false} OnlyLastVaries(c: Catalog, fields: seq<Field>, i: nat, depth: nat)
    requires i <= |fields| && depth <= MAX_DEPTH && FieldsTail(c, fields, i, depth).Trailing?
    ensures |fields| > 0 && i < |fields| && VariablePart(c, fields[|fields| - 1])
    ensures FieldsTail(c, fields, i, depth) == LastTail(c, fields, depth)
    ensures forall j :: i <= j < |fields| - 1 ==> !VariablePart(c, fields[j])
    decreases |fields| - i
  {
    hide LastTail, VariablePart;
    if !VariablePart(c, fields[i]) {
      OnlyLastVaries(c, fields, i + 1, depth);
    }
  }

  lemma LastSize(c: Catalog, fields: seq<Field>)
    requires |fields| > 0 && FieldSizes(c, fields, |fields|, false, 0) >= 0
    ensures FieldSizes(c, fields, |fields| - 1, false, 0) >= 0 && FieldSize(c, fields[|fields| - 1], 0) >= 0
    ensures FieldSizes(c, fields, |fields|, false, 0)
         == FieldSizes(c, fields, |fields| - 1, false, 0) + FieldSize(c, fields[|fields| - 1], 0)
  {
    hide FieldSize;
  }

  /** A text: four bytes for its length, then as many bytes as they say. */
  lemma TextTail(env: Env, t: Type, f: Field, members: Members, item: J.Json, tag: Option<J.Json>, depth: nat,
                 used: nat)
    requires depth <= MAX_DEPTH && f.type_ == Characters && !FixedText(f)
    requires WriteField(env, t, f, members, item, tag, depth, used).Good?
    ensures var part := WriteField(env, t, f, members, item, tag, depth, used).value;
            |part| >= 4 && |part| == 4 + FromLittle(part[..4])
  {
    hide Chosen;
    FieldIsChosen(env, t, f, members, item, tag, depth, used);
    var chosen := Chosen(t, f, members, tag).value;
    TooDeep(env, Characters, item, chosen, used);
    OfLeaf(env, Characters, item, [], chosen, depth + 1, used);
    SymbolTables.Pow256Values();
    LittleThenBack(|Kept(item.s)|, 4);
    var part := WriteField(env, t, f, members, item, tag, depth, used).value;
    assert part == WriteText(item).value;
    assert part[..4] == Little(|Kept(item.s)|, 4);
  }

  /** An array: the number in the counter field is the number of elements. */
  lemma ArrayTail(env: Env, t: Type, fields: seq<Field>, j: nat, start: Members, tag: Option<J.Json>, depth: nat,
                  used: nat)
    requires Serves(env) && depth <= MAX_DEPTH && SizedDefinition(Struct(fields)) && GoodFields(env.catalog, t, fields)
    requires j < |fields| - 1 && FieldSizes(env.catalog, fields, |fields| - 1, false, 0) >= 0
    requires forall l :: 0 <= l < |fields| - 1 ==> !VariablePart(env.catalog, fields[l])
    requires var f := fields[|fields| - 1];
             IsArray(f) && f.count == Some(fields[j].name) && IsCounter(fields[j])
             && HasSize(env.catalog, f.type_, 0)
    requires fields[j].name in start && WriteFields(env, t, fields, 0, start, tag, depth, used).Good?
    ensures var b := WriteFields(env, t, fields, 0, start, tag, depth, used).value;
            |b| == FieldSizes(env.catalog, fields, |fields| - 1, false, 0)
                   + NumberAt(b, FieldSizes(env.catalog, fields, j, false, 0), Width(fields[j].type_))
                     * FixedSize(env.catalog, fields[|fields| - 1].type_, 0)
  {
    hide WriteField, WriteFields, Serves, WellSized, FixedSize, Variable, FieldSizes, GoodFields, SizedDefinition,
         VariablePart, Width, Consistent, NumberAt, IsCounter;
    var c, last := env.catalog, |fields| - 1;
    ServesSizes(env);
    PrefixKnown(c, fields, j, last, 0);
    var at, item, before := FieldAt(env, t, fields, 0, last, start, tag, depth, used);
    var there, number, then_ := FieldAt(env, t, fields, 0, j, start, tag, depth, used);
    NoFields(c, fields, 0);
    CounterBytes(env, t, fields[j], there, number, tag, depth, then_);
    ArrayPart(env, t, fields[last], at, item, tag, depth, before);
    NumberFound(WriteFields(env, t, fields, 0, start, tag, depth, used).value, FieldSizes(c, fields, j, false, 0),
                WriteField(env, t, fields[j], there, number, tag, depth, then_).value);
  }

  lemma ArrayPart(env: Env, t: Type, f: Field, members: Members, item: J.Json, tag: Option<J.Json>, depth: nat,
                  used: nat)
    requires Consistent(env.host) && WellSized(env.catalog) && depth <= MAX_DEPTH && IsArray(f) && f.count.Some?
    requires HasSize(env.catalog, f.type_, 0) && WriteField(env, t, f, members, item, tag, depth, used).Good?
    ensures f.count.value in members && members[f.count.value].Num?
    ensures |WriteField(env, t, f, members, item, tag, depth, used).value|
         == Unsigned64(members[f.count.value].n) * FixedSize(env.catalog, f.type_, 0)
  {
    hide WriteField, Consistent, WellSized, HasSize, FixedSize, Unsigned64;
    OfArrayField(env, t, f, members, item, tag, depth, used);
    ItemsExact(env, f.type_, item.items, depth + 1, used, 0);
  }

  lemma ServesSizes(env: Env)
    requires Serves(env)
    ensures Consistent(env.host) && WellSized(env.catalog)
  {
    hide Consistent, GoodCatalog, WellSized;
    GoodIsWellSized(env.catalog);
  }

  lemma NumberFound(b: Text, offset: int, part: Text)
    requires 0 <= offset && offset + |part| <= |b| && b[offset..offset + |part|] == part
    ensures NumberAt(b, offset, |part|) == FromLittle(part)
  {
  }

  lemma CounterBytes(env: Env, t: Type, f: Field, members: Members, item: J.Json, tag: Option<J.Json>, depth: nat,
                     used: nat)
    requires depth <= MAX_DEPTH && IsCounter(f) && WriteField(env, t, f, members, item, tag, depth, used).Good?
    ensures var part := WriteField(env, t, f, members, item, tag, depth, used).value;
            |part| == Width(f.type_) && item.Num? && FromLittle(part) == item.n == Unsigned64(item.n)
  {
    hide Chosen;
    FieldIsChosen(env, t, f, members, item, tag, depth, used);
    var chosen := Chosen(t, f, members, tag).value;
    TooDeep(env, f.type_, item, chosen, used);
    OfLeaf(env, f.type_, item, [], chosen, depth + 1, used);
    SymbolTables.Pow256Values();
    LittleThenBack(item.n, Width(f.type_));
  }

  /** On the way to the tail no message is met that bears the name of a type the codec
      converts by itself, such as an alias of `string` where there is a message `string`. */
  predicate LeavesApart(c: Catalog, t: Type, k: nat)
    requires k <= MAX_DEPTH + 1
    decreases MAX_DEPTH + 1 - k, 1
  {
    k <= MAX_DEPTH && Variable(c, t, 0) && t in c ==>
      && !IsLeaf(t)
      && match c[t]
         case Alias(base, None) => LeavesApart(c, base, k + 1)
         case Struct(fields) => LastApart(c, fields, k)
         case _ => true
  }

  predicate LastApart(c: Catalog, fields: seq<Field>, k: nat)
    requires k <= MAX_DEPTH
    decreases MAX_DEPTH + 1 - k, 0
  {
    |fields| > 0 && fields[|fields| - 1].type_ != Characters && fields[|fields| - 1].length.None? ==>
      LeavesApart(c, fields[|fields| - 1].type_, k + 1)
  }

  /** Only a message of such a name can be met. */
  lemma {:induction false} NoMessagesApart(c: Catalog, t: Type, k: nat)
    requires k <= MAX_DEPTH + 1 && forall l :: l in c && IsLeaf(l) ==> !Variable(c, l, 0)
    ensures LeavesApart(c, t, k)
    decreases MAX_DEPTH + 1 - k, 1
  {
    hide IsLeaf, Variable;
    if k <= MAX_DEPTH && Variable(c, t, 0) && t in c {
      match c[t]
      case Alias(base, None) => NoMessagesApart(c, base, k + 1);
      case Struct(fields) =>
        if |fields| > 0 {
          NoMessagesApart(c, fields[|fields| - 1].type_, k + 1);
        }
      case _ =>
    }
  }

  lemma {:induction false} CountedAdds(fields: seq<Field>, i: nat, members: Members, j: nat)
    requires j < |fields| && i <= |fields| && Counted(fields, i, members).Good? && fields[j].count.Some?
    requires i <= j || fields[j].count.value in members
    ensures fields[j].count.value in Counted(fields, i, members).value
    decreases |fields| - i
  {
    if i < |fields| {
      if fields[i].count.None? {
        CountedAdds(fields, i + 1, members, j);
      } else {
        CountedAdds(fields, i + 1, members[fields[i].count.value := J.Num(|members[fields[i].name].items|)], j);
      }
    }
  }

  lemma CounterIsPlain(c: Catalog, t: Type, fields: seq<Field>, i: nat, j: nat)
    requires GoodFields(c, t, fields) && j < i < |fields| && fields[i].count == Some(fields[j].name)
    ensures IsCounter(fields[j]) && fields[i].length == Some(0) && IsArray(fields[i])
  {
    hide Tagged, Steady, KeyOf;
    assert GoodField(c, t, fields, i);
    var m: nat :| Earlier(fields, i, m, fields[i].count.value) && IsCounter(fields[m]);
    SameName(fields, m, j);
  }

  /** The last field is the end of the encoding, from its static offset on. */
  lemma LastPart(env: Env, t: Type, fields: seq<Field>, start: Members, tag: Option<J.Json>, depth: nat, used: nat)
           returns (at: Members, item: J.Json, before: nat)
    requires Serves(env) && depth <= MAX_DEPTH && |fields| > 0 && SizedDefinition(Struct(fields))
    requires forall j :: 0 <= j < |fields| - 1 ==> !VariablePart(env.catalog, fields[j])
    requires FieldSizes(env.catalog, fields, |fields| - 1, false, 0) >= 0
    requires WriteFields(env, t, fields, 0, start, tag, depth, used).Good?
    ensures WriteField(env, t, fields[|fields| - 1], at, item, tag, depth, before).Good?
    ensures var b := WriteFields(env, t, fields, 0, start, tag, depth, used).value;
            var part := WriteField(env, t, fields[|fields| - 1], at, item, tag, depth, before).value;
            var offset := FieldSizes(env.catalog, fields, |fields| - 1, false, 0);
            offset <= |b| && b[offset..] == part
  {
    hide WriteField, WriteFields, Serves, WellSized, FieldSizes, SizedDefinition, VariablePart, Consistent;
    ServesSizes(env);
    NoFields(env.catalog, fields, 0);
    at, item, before := FieldAt(env, t, fields, 0, |fields| - 1, start, tag, depth, used);
    var b := WriteFields(env, t, fields, 0, start, tag, depth, used).value;
    var offset := FieldSizes(env.catalog, fields, |fields| - 1, false, 0);
    assert b[offset..|b|] == b[offset..];
  }

  lemma LastIsText(env: Env, t: Type, fields: seq<Field>, start: Members, tag: Option<J.Json>, depth: nat, used: nat,
                   k: nat)
    requires Serves(env) && depth <= MAX_DEPTH && k <= MAX_DEPTH && |fields| > 0 && LastApart(env.catalog, fields, k)
    requires GoodFields(env.catalog, t, fields) && SizedDefinition(Struct(fields))
    requires forall j :: 0 <= j < |fields| - 1 ==> !VariablePart(env.catalog, fields[j])
    requires FieldSizes(env.catalog, fields, |fields| - 1, false, 0) >= 0
    requires FieldSize(env.catalog, fields[|fields| - 1], 0) >= 0
    requires LastTail(env.catalog, fields, k).Trailing?
    requires ElementSize(env.catalog, LastTail(env.catalog, fields, k).element) >= 0
    requires WriteFields(env, t, fields, 0, start, tag, depth, used).Good?
    requires fields[|fields| - 1].type_ == Characters && !FixedText(fields[|fields| - 1])
    ensures var c := env.catalog;
            var b := WriteFields(env, t, fields, 0, start, tag, depth, used).value;
            |b| == FieldSizes(c, fields, |fields| - 1, false, 0) + FieldSize(c, fields[|fields| - 1], 0)
                   + LastCount(c, fields, b, k) * ElementSize(c, LastTail(c, fields, k).element)
  {
    hide WriteField, WriteFields, Serves, WellSized, FixedSize, Variable, FieldSizes, GoodFields, SizedDefinition,
         VariablePart, Consistent, NumberAt, Chosen, LeavesApart, ReplyTail, CountAt;
    var c, last := env.catalog, |fields| - 1;
    var f := fields[last];
    var b := WriteFields(env, t, fields, 0, start, tag, depth, used).value;
    var offset := FieldSizes(c, fields, last, false, 0);
    var at, item, before := LastPart(env, t, fields, start, tag, depth, used);
    var part := WriteField(env, t, f, at, item, tag, depth, before).value;
    TextTail(env, t, f, at, item, tag, depth, before);
    assert b[offset..offset + 4] == part[..4] by { assert b[offset..][..4] == part[..4]; }
    NumberFound(b, offset, part[..4]);
  }

  lemma LastIsArray(env: Env, t: Type, fields: seq<Field>, start: Members, tag: Option<J.Json>, depth: nat, used: nat,
                    k: nat)
    requires Serves(env) && depth <= MAX_DEPTH && k <= MAX_DEPTH && |fields| > 0 && LastApart(env.catalog, fields, k)
    requires GoodFields(env.catalog, t, fields) && SizedDefinition(Struct(fields))
    requires forall j :: 0 <= j < |fields| - 1 ==> !VariablePart(env.catalog, fields[j])
    requires FieldSizes(env.catalog, fields, |fields| - 1, false, 0) >= 0
    requires FieldSize(env.catalog, fields[|fields| - 1], 0) >= 0
    requires LastTail(env.catalog, fields, k).Trailing?
    requires ElementSize(env.catalog, LastTail(env.catalog, fields, k).element) >= 0
    requires WriteFields(env, t, fields, 0, start, tag, depth, used).Good?
    requires fields[|fields| - 1].type_ != Characters && fields[|fields| - 1].length.Some?
    requires fields[|fields| - 1].count.Some? ==> fields[|fields| - 1].count.value in start
    ensures var c := env.catalog;
            var b := WriteFields(env, t, fields, 0, start, tag, depth, used).value;
            |b| == FieldSizes(c, fields, |fields| - 1, false, 0) + FieldSize(c, fields[|fields| - 1], 0)
                   + LastCount(c, fields, b, k) * ElementSize(c, LastTail(c, fields, k).element)
  {
    hide WriteField, WriteFields, Serves, WellSized, FixedSize, Variable, FieldSizes, GoodFields, SizedDefinition,
         VariablePart, Consistent, NumberAt, Chosen, LeavesApart, ReplyTail, CountAt;
    var c, last := env.catalog, |fields| - 1;
    var f := fields[last];
    CounterIsEarlier(fields, last, f.count.value);
    var j := CounterOf(fields, last, f.count.value).value;
    CounterIsPlain(c, t, fields, last, j);
    ArrayTail(env, t, fields, j, start, tag, depth, used);
    NothingOf(c, f);
  }

  lemma {:induction false} LastIsNested(env: Env, t: Type, fields: seq<Field>, start: Members, tag: Option<J.Json>,
                                        depth: nat, used: nat, k: nat)
    requires Serves(env) && depth <= MAX_DEPTH && k <= MAX_DEPTH && |fields| > 0 && LastApart(env.catalog, fields, k)
    requires GoodFields(env.catalog, t, fields) && SizedDefinition(Struct(fields))
    requires forall j :: 0 <= j < |fields| - 1 ==> !VariablePart(env.catalog, fields[j])
    requires FieldSizes(env.catalog, fields, |fields| - 1, false, 0) >= 0
    requires FieldSize(env.catalog, fields[|fields| - 1], 0) >= 0
    requires LastTail(env.catalog, fields, k).Trailing?
    requires ElementSize(env.catalog, LastTail(env.catalog, fields, k).element) >= 0
    requires WriteFields(env, t, fields, 0, start, tag, depth, used).Good?
    requires fields[|fields| - 1].type_ != Characters && fields[|fields| - 1].length.None?
    ensures var c := env.catalog;
            var b := WriteFields(env, t, fields, 0, start, tag, depth, used).value;
            |b| == FieldSizes(c, fields, |fields| - 1, false, 0) + FieldSize(c, fields[|fields| - 1], 0)
                   + LastCount(c, fields, b, k) * ElementSize(c, LastTail(c, fields, k).element)
    decreases MAX_DEPTH + 1 - depth, 0
  {
    hide WriteField, WriteFields, Serves, WellSized, FixedSize, Variable, FieldSizes, GoodFields, SizedDefinition,
         VariablePart, Consistent, NumberAt, Chosen, LeavesApart, LastApart, ReplyTail, CountAt, LastTail, LastCount,
         FieldSize, ElementSize;
    var c, last := env.catalog, |fields| - 1;
    var f := fields[last];
    var b := WriteFields(env, t, fields, 0, start, tag, depth, used).value;
    var at, item, before := LastPart(env, t, fields, start, tag, depth, used);
    FieldIsChosen(env, t, f, at, item, tag, depth, before);
    var chosen := Chosen(t, f, at, tag).value;
    OfField(env, t, f, at, item, [], tag, depth, before);
    NestedTail(c, fields, b, k);
    NestedSize(c, f);
    SizeAnywhere(c, f.type_, 1, 0);
    TailSize(env, f.type_, item, chosen, depth + 1, before, k + 1);
  }

  lemma NestedTail(c: Catalog, fields: seq<Field>, b: Text, k: nat)
    requires |fields| > 0 && k <= MAX_DEPTH && LastTail(c, fields, k).Trailing? && LastApart(c, fields, k)
    requires fields[|fields| - 1].type_ != Characters && fields[|fields| - 1].length.None?
    requires 0 <= FieldSizes(c, fields, |fields| - 1, false, 0) <= |b|
    ensures var t := fields[|fields| - 1].type_;
            && ReplyTail(c, t, k + 1).Trailing? && ReplyTail(c, t, k + 1).element == LastTail(c, fields, k).element
            && LastCount(c, fields, b, k) == CountAt(c, t, b[FieldSizes(c, fields, |fields| - 1, false, 0)..], k + 1)
            && LeavesApart(c, t, k + 1)
  {
    hide FieldSizes, ReplyTail, CountAt, Variable, LeavesApart;
  }

  lemma NestedSize(c: Catalog, f: Field)
    requires f.type_ != Characters && f.length.None?
    ensures FieldSize(c, f, 0) == FixedSize(c, f.type_, 1)
  {
    hide FixedSize;
  }

  /** The size of a struct, by the number that counts its last, variable field. */
  lemma {:induction false} StructTail(env: Env, t: Type, start: Members, tag: Option<J.Json>, depth: nat, used: nat,
                                      k: nat)
    requires Serves(env) && depth <= MAX_DEPTH && k <= MAX_DEPTH
    requires t in env.catalog && env.catalog[t].Struct? && LastApart(env.catalog, env.catalog[t].fields, k)
    requires forall j :: 0 <= j < |env.catalog[t].fields| && env.catalog[t].fields[j].count.Some? ==>
               env.catalog[t].fields[j].count.value in start
    requires FieldsTail(env.catalog, env.catalog[t].fields, 0, k).Trailing?
    requires ElementSize(env.catalog, FieldsTail(env.catalog, env.catalog[t].fields, 0, k).element) >= 0
    requires FieldSizes(env.catalog, env.catalog[t].fields, |env.catalog[t].fields|, false, 0) >= 0
    requires WriteFields(env, t, env.catalog[t].fields, 0, start, tag, depth, used).Good?
    ensures var c, fields := env.catalog, env.catalog[t].fields;
            var b := WriteFields(env, t, fields, 0, start, tag, depth, used).value;
            |b| == FieldSizes(c, fields, |fields|, false, 0)
                   + CountAt(c, t, b, k) * ElementSize(c, FieldsTail(c, fields, 0, k).element)
    decreases MAX_DEPTH + 1 - depth, 1
  {
    hide WriteField, WriteFields, Serves, WellSized, FixedSize, Variable, FieldSizes, GoodFields, SizedDefinition,
         VariablePart, LeavesApart, LastApart, ReplyTail, LastTail, LastCount, FieldSize;
    var c, fields := env.catalog, env.catalog[t].fields;
    FieldsAreGood(env, t);
    ServesSizes(env);
    OnlyLastVaries(c, fields, 0, k);
    LastSize(c, fields);
    StructIsSized(c, t);
    var f := fields[|fields| - 1];
    LastIsNoFixedText(c, f);
    if f.type_ == Characters {
      LastIsText(env, t, fields, start, tag, depth, used, k);
    } else if f.length.None? {
      LastIsNested(env, t, fields, start, tag, depth, used, k);
    } else {
      LastIsArray(env, t, fields, start, tag, depth, used, k);
    }
  }

  lemma NothingOf(c: Catalog, f: Field)
    requires f.type_ != Characters && f.length == Some(0)
    ensures FieldSize(c, f, 0) == 0
  {
    hide FixedSize;
  }

  lemma LastIsNoFixedText(c: Catalog, f: Field)
    requires VariablePart(c, f)
    ensures !FixedText(f)
  {
    hide Variable;
  }

  lemma StructIsSized(c: Catalog, t: Type)
    requires WellSized(c) && t in c && c[t].Struct?
    ensures SizedDefinition(c[t])
  {
    hide NativeSizes, SizedDefinition;
  }

  /** The layout the generator derives from the schema alone gives the exact size of every
      encoding: the fixed part, and so many elements as the number at the derived place
      says. */
  lemma {:induction false} TailSize(env: Env, t: Type, v: J.Json, tag: Option<J.Json>, depth: nat, used: nat, k: nat)
    requires Serves(env) && depth <= MAX_DEPTH + 1 && k <= MAX_DEPTH + 1 && LeavesApart(env.catalog, t, k)
    requires ReplyTail(env.catalog, t, k).Trailing?
    requires ElementSize(env.catalog, ReplyTail(env.catalog, t, k).element) >= 0
    requires FixedSize(env.catalog, t, 0) >= 0 && Write(env, t, v, tag, depth, used).Good?
    ensures var c := env.catalog;
            var b := Write(env, t, v, tag, depth, used).value;
            |b| == FixedSize(c, t, 0) + CountAt(c, t, b, k) * ElementSize(c, ReplyTail(c, t, k).element)
    decreases MAX_DEPTH + 1 - depth, 2
  {
    hide Write, WriteFields, Serves, Variable, FieldSizes, FieldsTail, Prepared, IsLeaf, Counted, Start, Lifted;
    var c := env.catalog;
    NoLeafVaries(c, t, k);
    NoWidth(t);
    TooDeep(env, t, v, tag, used);
    match c[t]
    case Alias(base, None) =>
      OfAlias(env, t, v, [], tag, depth, used);
      SizeAnywhere(c, base, 1, 0);
      TailSize(env, base, v, tag, depth + 1, used, k + 1);
    case Struct(fields) =>
      OfStruct(env, t, v, tag, depth, used);
      var start := Start(t, fields, v);
      CountsPresent(fields, Lifted(t, v).value.m);
      StructTail(env, t, start, tag, depth, used, k);
  }

  lemma CountsPresent(fields: seq<Field>, members: Members)
    requires Prepared(fields, members).Good?
    ensures forall j :: 0 <= j < |fields| && fields[j].count.Some? ==>
              fields[j].count.value in Prepared(fields, members).value
  {
    hide Counts, IsNamed, Counted;
    forall j | 0 <= j < |fields| && fields[j].count.Some?
      ensures fields[j].count.value in Prepared(fields, members).value
    {
      CountedAdds(fields, 0, members, j);
    }
  }

  lemma NoLeafVaries(c: Catalog, t: Type, k: nat)
    requires k <= MAX_DEPTH + 1 && LeavesApart(c, t, k) && ReplyTail(c, t, k).Trailing?
    ensures t in c && !IsLeaf(t) && k <= MAX_DEPTH && ((c[t].Alias? && c[t].length.None?) || c[t].Struct?)
    ensures c[t].Alias? ==> LeavesApart(c, c[t].base, k + 1)
    ensures c[t].Struct? ==> LastApart(c, c[t].fields, k)
  {
    hide IsLeaf, Variable, FieldsTail, LastApart;
  }

  // ---- The emitted path ----

  /** Where a number lies in the native reply, and its width. */
  datatype Place = Place(offset: int, width: nat)

  function FieldOf(fields: seq<Field>, n: nat, name: Text): Option<nat>
    requires n <= |fields|
  {
    if n == 0 then None else if fields[n - 1].name == name then Some(n - 1) else FieldOf(fields, n - 1, name)
  }

  lemma {:induction false} FieldOfName(fields: seq<Field>, n: nat, i: nat)
    requires i < n <= |fields| && Distinct(fields)
    ensures FieldOf(fields, n, fields[i].name) == Some(i)
  {
    if i < n - 1 {
      DistinctAt(fields, i, n - 1);
      FieldOfName(fields, n - 1, i);
    }
  }

  lemma {:induction false} FieldOfBound(fields: seq<Field>, n: nat, name: Text)
    requires n <= |fields|
    ensures FieldOf(fields, n, name).Some? ==> FieldOf(fields, n, name).value < n
  {
    if n > 0 {
      FieldOfBound(fields, n - 1, name);
    }
  }

  /** The member a path of names leads to, as the compiler lays it out: the names before the
      last one are structs, of a text the length is meant. */
  function Located(c: Catalog, t: Type, path: seq<Text>, depth: nat): Option<Place>
    requires depth <= MAX_DEPTH + 1
    decreases MAX_DEPTH + 1 - depth
  {
    if depth > MAX_DEPTH || path == [] || t !in c then None
    else
      match c[t]
      case Alias(base, None) => Located(c, base, path, depth + 1)
      case Struct(fields) =>
        FieldOfBound(fields, |fields|, path[0]);
        (match FieldOf(fields, |fields|, path[0])
         case None => None
         case Some(i) =>
           var offset := FieldSizes(c, fields, i, false, 0);
           if |path| == 1 then Some(Place(offset, Width(fields[i].type_)))
           else
             match Located(c, fields[i].type_, path[1..], depth + 1)
             case None => None
             case Some(inner) => Some(Place(offset + inner.offset, inner.width)))
      case _ => None
  }

  lemma NumberBehind(b: Text, offset: int, inner: int, width: nat)
    requires 0 <= offset <= |b| && inner >= 0
    ensures NumberAt(b[offset..], inner, width) == NumberAt(b, offset + inner, width)
  {
    if offset + inner + width <= |b| {
      assert b[offset..][inner..inner + width] == b[offset + inner..offset + inner + width];
    }
  }

  ghost predicate AllDistinct(c: Catalog) { forall t :: t in c && c[t].Struct? ==> Distinct(c[t].fields) }

  /** What the emitted path names is the number the size is computed from. */
  lemma {:induction false} PathIsCount(c: Catalog, t: Type, b: Text, k: nat)
    requires AllDistinct(c) && k <= MAX_DEPTH + 1 && LeavesApart(c, t, k)
    requires ReplyTail(c, t, k).Trailing? && 0 <= FixedSize(c, t, 0) <= |b|
    ensures var place := Located(c, t, ReplyTail(c, t, k).path, k);
            && place.Some? && 0 <= place.value.offset
            && CountAt(c, t, b, k) == NumberAt(b, place.value.offset, place.value.width)
    decreases MAX_DEPTH + 1 - k, 1
  {
    hide FixedSize, Variable, FieldsTail, LastTail, LastCount, FieldSizes, LeavesApart, IsLeaf, Distinct;
    NoLeafVaries(c, t, k);
    NoWidth(t);
    match c[t]
    case Alias(base, None) =>
      AliasIsSized(c, t, base);
      PathNotEmpty(c, base, k + 1);
      PathIsCount(c, base, b, k + 1);
    case Struct(fields) =>
      OnlyLastVaries(c, fields, 0, k);
      StructIsKnown(c, t, fields);
      LastPathIsCount(c, t, fields, b, k);
  }

  lemma AliasIsSized(c: Catalog, t: Type, base: Type)
    requires Width(t) == 0 && t in c && c[t] == Alias(base, None) && FixedSize(c, t, 0) >= 0
    ensures FixedSize(c, base, 0) == FixedSize(c, t, 0)
  {
    hide Width;
    assert FixedSize(c, t, 0) == DefinedSize(c, c[t], 0);
    SizeAnywhere(c, base, 1, 0);
  }

  lemma StructIsKnown(c: Catalog, t: Type, fields: seq<Field>)
    requires Width(t) == 0 && t in c && c[t] == Struct(fields) && FixedSize(c, t, 0) >= 0
    ensures FixedSize(c, t, 0) == FieldSizes(c, fields, |fields|, false, 0)
  {
    hide Width, FieldSizes;
    assert FixedSize(c, t, 0) == DefinedSize(c, c[t], 0);
  }

  lemma {:induction false} PathNotEmpty(c: Catalog, t: Type, k: nat)
    requires k <= MAX_DEPTH + 1 && ReplyTail(c, t, k).Trailing?
    ensures ReplyTail(c, t, k).path != []
    decreases MAX_DEPTH + 1 - k, 1
  {
    hide Variable, FieldsTail, LastTail;
    match c[t]
    case Alias(base, None) => PathNotEmpty(c, base, k + 1);
    case Struct(fields) =>
      OnlyLastVaries(c, fields, 0, k);
      LastPathNotEmpty(c, fields, k);
  }

  lemma LastPathNotEmpty(c: Catalog, fields: seq<Field>, k: nat)
    requires |fields| > 0 && k <= MAX_DEPTH && LastTail(c, fields, k).Trailing?
    ensures LastTail(c, fields, k).path != []
  {
    hide Variable, ReplyTail;
  }

  lemma {:induction false} LastPathIsCount(c: Catalog, t: Type, fields: seq<Field>, b: Text, k: nat)
    requires AllDistinct(c) && k <= MAX_DEPTH && |fields| > 0 && LastApart(c, fields, k)
    requires t in c && c[t] == Struct(fields) && LastTail(c, fields, k).Trailing?
    requires 0 <= FieldSizes(c, fields, |fields|, false, 0) <= |b|
    ensures var place := Located(c, t, LastTail(c, fields, k).path, k);
            && place.Some? && 0 <= place.value.offset
            && LastCount(c, fields, b, k) == NumberAt(b, place.value.offset, place.value.width)
    decreases MAX_DEPTH + 1 - k, 0
  {
    hide FixedSize, Variable, FieldSizes, ReplyTail, CountAt, LeavesApart, Width, NumberAt;
    var i := |fields| - 1;
    var f := fields[i];
    LastSize(c, fields);
    if f.type_ == Characters {
      FieldOfName(fields, |fields|, i);
      assert Width(Characters) == 4 by { TextWidth(); }
    } else if f.length.None? {
      FieldOfName(fields, |fields|, i);
      var inner := ReplyTail(c, f.type_, k + 1);
      PathNotEmpty(c, f.type_, k + 1);
      assert ([f.name] + inner.path)[1..] == inner.path;
      NestedSize(c, f);
      SizeAnywhere(c, f.type_, 1, 0);
      var offset := FieldSizes(c, fields, i, false, 0);
      PathIsCount(c, f.type_, b[offset..], k + 1);
      var place := Located(c, f.type_, inner.path, k + 1).value;
      NumberBehind(b, offset, place.offset, place.width);
    } else {
      CounterIsEarlier(fields, i, f.count.value);
      var j := CounterOf(fields, i, f.count.value).value;
      FieldOfName(fields, |fields|, j);
      PrefixKnown(c, fields, j, i, 0);
    }
  }

  lemma TextWidth()
    ensures Width(Characters) == 4
  {
  }

  // ---- The guard ----

  /** The emitted test, which divides so that nothing can overflow. */
  predicate Guard(size: nat, count: nat, element: nat)
    requires element > 0
  {
    size <= PAYLOAD_BYTES && count <= (PAYLOAD_BYTES - size) / element
  }

  /** It accepts exactly the replies of at most 1 MiB. */
  lemma GuardIsExact(size: nat, count: nat, element: nat)
    requires element > 0
    ensures Guard(size, count, element) <==> size + count * element <= PAYLOAD_BYTES
  {
    if size <= PAYLOAD_BYTES {
      var room := PAYLOAD_BYTES - size;
      var most := room / element;
      if count <= most {
        Grows(count, most, element);
        assert most * element <= room;
      } else {
        Grows(most + 1, count, element);
        assert room < (most + 1) * element;
      }
    } else {
      Grows(0, count, element);
    }
  }

  lemma Grows(a: nat, b: nat, n: nat)
    requires a <= b
    ensures a * n <= b * n
  {
  }

  /** The types the generator emits bindings for. */
  predicate Supported(c: Catalog, t: Type, tagged: bool, depth: nat)
    requires depth <= MAX_DEPTH + 1
    decreases MAX_DEPTH + 1 - depth
  {
    if depth > MAX_DEPTH || FixedSize(c, t, 0) < 0 then false
    else if t !in c then true
    else
      match c[t]
      case Alias(base, _) => Supported(c, base, false, depth + 1)
      case Enumeration(_, _, _) => true
      case Struct(fields) => forall i :: 0 <= i < |fields| ==> SupportedField(c, fields[i], depth)
      case Union(fields) => tagged && forall i :: 0 <= i < |fields| ==>
          fields[i].length.None? && SupportedField(c, fields[i], depth)
  }

  predicate SupportedField(c: Catalog, f: Field, depth: nat)
    requires depth <= MAX_DEPTH
    decreases MAX_DEPTH + 1 - depth, 0
  {
    Supported(c, f.type_, f.discriminator.Some? || f.type_ == AddressUnion, depth + 1)
  }

  /** A supported type has a known size, and so have the elements of its tail. */
  lemma {:induction false} SupportedTail(c: Catalog, t: Type, tagged: bool, k: nat)
    requires k <= MAX_DEPTH + 1 && Supported(c, t, tagged, k) && ReplyTail(c, t, k).Trailing?
    ensures FixedSize(c, t, 0) >= 0 && ElementSize(c, ReplyTail(c, t, k).element) >= 0
    decreases MAX_DEPTH + 1 - k
  {
    hide FixedSize, Variable, FieldsTail, LastTail;
    if Variable(c, t, 0) && t in c {
      match c[t]
      case Alias(base, None) => SupportedTail(c, base, false, k + 1);
      case Alias(_, Some(_)) =>
      case Struct(fields) =>
        OnlyLastVaries(c, fields, 0, k);
        SupportedLast(c, fields, k);
      case _ =>
    }
  }

  lemma {:induction false} SupportedLast(c: Catalog, fields: seq<Field>, k: nat)
    requires k <= MAX_DEPTH && |fields| > 0 && SupportedField(c, fields[|fields| - 1], k)
    requires LastTail(c, fields, k).Trailing?
    ensures ElementSize(c, LastTail(c, fields, k).element) >= 0
    decreases MAX_DEPTH + 1 - k, 0
  {
    hide FixedSize, Variable, ReplyTail, Supported;
    var f := fields[|fields| - 1];
    if f.type_ != Characters {
      if f.length.None? {
        SupportedTail(c, f.type_, f.discriminator.Some? || f.type_ == AddressUnion, k + 1);
      } else {
        SupportedIsSized(c, f.type_, f.discriminator.Some? || f.type_ == AddressUnion, k + 1);
      }
    }
  }

  lemma SupportedIsSized(c: Catalog, t: Type, tagged: bool, depth: nat)
    requires depth <= MAX_DEPTH + 1 && Supported(c, t, tagged, depth)
    ensures FixedSize(c, t, 0) >= 0
  {
    hide FixedSize;
  }

  /** A supported message stands for no union, so it is read without a discriminator. */
  lemma {:induction false} SupportedIsUntagged(c: Catalog, t: Type, depth: nat, n: nat)
    requires depth <= MAX_DEPTH + 1 && Supported(c, t, false, depth) && !IsNextHop(c, t, n)
    ensures !TaggedWithin(c, t, n)
    decreases n
  {
    hide FixedSize, IsLeaf, SupportedField;
    if t in c && c[t].Alias? && n > 0 {
      SupportedIsUntagged(c, c[t].base, depth + 1, n - 1);
    }
  }

  lemma ServesDistinct(env: Env)
    requires Serves(env)
    ensures AllDistinct(env.catalog)
  {
    hide Consistent, GoodCatalog, GoodFields, Distinct, GoodText;
    forall t | t in env.catalog && env.catalog[t].Struct? ensures Distinct(env.catalog[t].fields) {
      FieldsAreGood(env, t);
      GoodIsDistinct(env.catalog, t, env.catalog[t].fields);
    }
  }

  /** The guard lets every encoding of a supported reply type through. Its exact size is the
      fixed part and so many elements as the number says that the emitted path leads to. */
  lemma GuardAcceptsEncodings(env: Env, t: Type, v: J.Json)
    requires Serves(env) && LeavesApart(env.catalog, t, 0)
    requires Supported(env.catalog, t, false, 0) && Encode(env, t, v).Good?
    requires ReplyTail(env.catalog, t, 0).Trailing?
    requires ElementSize(env.catalog, ReplyTail(env.catalog, t, 0).element) != 0
    ensures var c, b := env.catalog, Encode(env, t, v).value;
            var element, place := ElementSize(c, ReplyTail(c, t, 0).element), Located(c, t, ReplyTail(c, t, 0).path, 0);
            && FixedSize(c, t, 0) >= 0 && element > 0 && place.Some?
            && var count := NumberAt(b, place.value.offset, place.value.width);
            && |b| == FixedSize(c, t, 0) + count * element && Guard(FixedSize(c, t, 0), count, element)
  {
    hide Write, FixedSize, ReplyTail, CountAt, ElementSize, Serves, LeavesApart, Guard, Supported, Located,
         AllDistinct, NumberAt;
    var c, b := env.catalog, Encode(env, t, v).value;
    SupportedTail(c, t, false, 0);
    TailSize(env, t, v, None, 0, 0, 0);
    var element := ElementSize(c, ReplyTail(c, t, 0).element);
    EncodeFits(env, t, v);
    GuardIsExact(FixedSize(c, t, 0), CountAt(c, t, b, 0), element);
    ServesDistinct(env);
    Grows(0, CountAt(c, t, b, 0), element);
    PathIsCount(c, t, b, 0);
  }

  // ---- Where a message has the name of a text ----

  const ALIAS := Named(Ascii("text_t"))

  /** A message called `string` that ends in an array, and an alias of the basic type. */
  const MIXED: Catalog :=
    map[Characters := Struct([Field(LEN, U8, None, None, None, None, None),
                              Field(ADDRESS, U16, Some(0), Some(LEN), None, None, None)]),
        ALIAS := Alias(Characters, None)]

  lemma MixedEntries()
    ensures ALIAS in MIXED && MIXED[ALIAS] == Alias(Characters, None) && Characters in MIXED
    ensures MIXED[Characters] == Struct([Field(LEN, U8, None, None, None, None, None),
                                         Field(ADDRESS, U16, Some(0), Some(LEN), None, None, None)])
    ensures U8 !in MIXED && U16 !in MIXED && LEN != ADDRESS
  {
    hide Ascii;
    AddressNames();
  }

  lemma MixedLast()
    ensures FieldsTail(MIXED, MIXED[Characters].fields, 0, 1) == Trailing([LEN], Some(U16))
  {
    hide Ascii, MIXED;
    MixedEntries();
    var fields := MIXED[Characters].fields;
    assert FieldsTail(MIXED, fields, 1, 1) == LastTail(MIXED, fields, 1);
    assert CounterOf(fields, 1, LEN) == Some(0);
  }

  /** An alias of the basic type takes the tail of the message and the size of a length. */
  lemma AliasTail(c: Catalog, t: Type)
    requires !IsLeaf(t) && t in c && c[t] == Alias(Characters, None) && Characters in c && c[Characters].Struct?
    ensures ReplyTail(c, t, 0) == FieldsTail(c, c[Characters].fields, 0, 1) && !LeavesApart(c, t, 0)
    ensures FixedSize(c, t, 0) == 4
  {
    hide FieldsTail, LastApart, FieldSizes, IsLeaf, FixedSize;
    TextIsLeaf();
    AliasSize(c, t);
    assert Variable(c, Characters, 0) && Variable(c, Characters, 1);
    assert ReplyTail(c, Characters, 1) == FieldsTail(c, c[Characters].fields, 0, 1);
  }

  lemma AliasSize(c: Catalog, t: Type)
    requires !IsLeaf(t) && t in c && c[t] == Alias(Characters, None)
    ensures FixedSize(c, t, 0) == 4
  {
    hide FieldSizes;
    NoWidth(t);
    assert FixedSize(c, Characters, 1) == 4;
  }

  lemma MixedTail()
    ensures ReplyTail(MIXED, ALIAS, 0) == Trailing([LEN], Some(U16)) && !LeavesApart(MIXED, ALIAS, 0)
    ensures FixedSize(MIXED, ALIAS, 0) == 4 && ElementSize(MIXED, Some(U16)) == 2
  {
    hide Ascii, MIXED, FieldsTail, ReplyTail, LeavesApart;
    MixedEntries();
    MixedLast();
    assert FixedSize(MIXED, ALIAS, 0) == 4 by { AliasTail(MIXED, ALIAS); }
    AliasTail(MIXED, ALIAS);
  }

  /** What a text of two letters is sent as. */
  const SENT: Text := [2, 0, 0, 0, 97, 98]

  lemma MixedCount()
    ensures CountAt(MIXED, ALIAS, SENT, 0) == 2
  {
    hide Ascii, MIXED;
    MixedEntries();
    var fields := MIXED[Characters].fields;
    assert CounterOf(fields, 1, LEN) == Some(0);
    assert CountAt(MIXED, Characters, SENT, 1) == LastCount(MIXED, fields, SENT, 1);
    assert SENT[0..1] == [2];
    assert FromLittle([2]) == 2 by { OneByte(); }
  }

  lemma OneByte()
    ensures FromLittle([2]) == 2
  {
    assert [2 as byte][1..] == [];
    assert FromLittle([]) == 0;
  }

  lemma TextIsLeaf()
    ensures IsLeaf(Characters)
  {
  }

  lemma AliasSent(env: Env, t: Type, v: J.Json)
    requires !IsLeaf(t) && t in env.catalog && env.catalog[t] == Alias(Characters, None)
    ensures Encode(env, t, v) == WriteLeaf(env.host, Characters, v, 0)
  {
    hide Write, WriteLeaf, Read, ReadLeaf, Canon, Canonical.Settled, IsLeaf;
    TextIsLeaf();
    OfAlias(env, t, v, [], None, 0, 0);
    OfLeaf(env, Characters, v, [], None, 1, 0);
  }

  lemma MixedSent(h: Host)
    ensures Encode(Env(MIXED, h), ALIAS, J.Str([97, 98])) == Good(SENT)
  {
    hide Ascii, Write, WriteLeaf, MIXED, Encode;
    MixedEntries();
    AliasSent(Env(MIXED, h), ALIAS, J.Str([97, 98]));
    LettersSent(h);
  }

  lemma LettersSent(h: Host)
    ensures WriteLeaf(h, Characters, J.Str([97, 98]), 0) == Good(SENT)
  {
    hide WriteText;
    TwoLetters();
  }

  lemma TwoLetters()
    ensures WriteText(J.Str([97, 98])) == Good(SENT)
  {
    var letters: Text := [97, 98];
    assert Kept(letters) == letters && |letters| == 2;
    assert Little(0, 0) == [] && Little(0, 1) == [0] && Little(0, 2) == [0, 0] && Little(0, 3) == [0, 0, 0];
    assert Little(2, 4) == [2] + Little(0, 3) == [2, 0, 0, 0];
    assert WriteText(J.Str(letters)) == Good(Little(2, 4) + letters);
    assert Little(2, 4) + letters == SENT;
  }

  /** The size is then computed from the message, although a text is sent. */
  lemma MixedTailFails(h: Host)
    ensures Encode(Env(MIXED, h), ALIAS, J.Str([97, 98])) == Good(SENT)
    ensures ReplyTail(MIXED, ALIAS, 0) == Trailing([LEN], Some(U16))
    ensures |SENT| != FixedSize(MIXED, ALIAS, 0) + CountAt(MIXED, ALIAS, SENT, 0) * ElementSize(MIXED, Some(U16))
  {
    hide Ascii, ReplyTail, CountAt, FixedSize, Write;
    MixedTail();
    MixedCount();
    MixedSent(h);
  }
}
