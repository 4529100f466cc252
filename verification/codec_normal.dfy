/** Values with the same canonical form are written as the same bytes, even where that
    form itself is refused. */
module CodecNormal {
  import opened Text
  import opened Catalogs
  import opened Leaves
  import opened Codec
  import opened CodecSizes
  import opened Canonical
  import opened RoundTrips
  import opened CodecRoundTrip
  import J = JsonText

  lemma {:induction false} SameBytes(env: Env, t: Type, v: J.Json, w: J.Json, tag: Option<J.Json>, depth: nat,
                                     used: nat)
    requires Serves(env) && Telling(env.host) && depth <= MAX_DEPTH + 1
    requires TaggedWithin(env.catalog, t, MAX_DEPTH + 1 - depth) ==> tag.Some?
    requires Write(env, t, v, tag, depth, used).Good? && Write(env, t, w, tag, depth, used).Good?
    requires Canon(env, t, v, depth) == Canon(env, t, w, depth)
    ensures Write(env, t, v, tag, depth, used) == Write(env, t, w, tag, depth, used)
    decreases MAX_DEPTH + 1 - depth, 4, 0
  {
    hide Serves, Telling, IsLeaf, Tagged, TaggedWithin, Write, Read, Canon, GoodFields, WriteLeaf, ReadLeaf, WriteItems,
         ReadItems, CanonItems, Settled, SettledItems, SettledUnion, WriteUnion, ReadUnion, CanonUnion, GoodMembers,
         IsPrefix, WriteFixed;
    TooDeep(env, t, v, tag, used);
    if IsLeaf(t) {
      SameLeaf(env, t, v, w, tag, depth, used);
    } else {
      KnownType(env, t, v, tag, depth, used);
      match env.catalog[t]
      case Alias(base, None) =>
        OfAlias(env, t, v, [], tag, depth, used);
        OfAlias(env, t, w, [], tag, depth, used);
        TaggedThrough(env.catalog, t, depth);
        SameBytes(env, base, v, w, tag, depth + 1, used);
      case Alias(base, Some(n)) =>
        OfArray(env, t, v, [], tag, depth, used);
        OfArray(env, t, w, [], tag, depth, used);
        BaseIsGood(env, t);
        SameItems(env, base, v.items, w.items, depth + 1, used);
      case Enumeration(_, _, _) =>
        EnumerationRoundTrip(env, t, v, tag, depth, used, []);
        EnumerationRoundTrip(env, t, w, tag, depth, used, []);
      case Union(fields) =>
        MembersAreGood(env, t);
        OfUnion(env, t, v, [], tag, depth, used);
        OfUnion(env, t, w, [], tag, depth, used);
        SameUnion(env, t, v, w, tag, depth, used);
      case Struct(fields) =>
        FibIsTagged(env.catalog, t, depth);
        SameStruct(env, t, v, w, tag, depth, used);
    }
  }

  lemma SameLeaf(env: Env, t: Type, v: J.Json, w: J.Json, tag: Option<J.Json>, depth: nat, used: nat)
    requires Serves(env) && depth <= MAX_DEPTH && IsLeaf(t)
    requires Write(env, t, v, tag, depth, used).Good? && Write(env, t, w, tag, depth, used).Good?
    requires Canon(env, t, v, depth) == Canon(env, t, w, depth)
    ensures Write(env, t, v, tag, depth, used) == Write(env, t, w, tag, depth, used)
  {
    hide Serves, IsLeaf, Write, Read, Canon, WriteLeaf, ReadLeaf;
    OfLeaf(env, t, v, [], tag, depth, used);
    OfLeaf(env, t, w, [], tag, depth, used);
    LeafRoundTrip(env, t, v, depth, used, []);
    LeafRoundTrip(env, t, w, depth, used, []);
  }

  lemma {:induction false} SameItems(env: Env, t: Type, items: seq<J.Json>, others: seq<J.Json>, depth: nat, used: nat)
    requires Serves(env) && Telling(env.host) && depth <= MAX_DEPTH + 1 && !Tagged(env.catalog, t)
    requires WriteItems(env, t, items, depth, used).Good? && WriteItems(env, t, others, depth, used).Good?
    requires CanonItems(env, t, items, depth) == CanonItems(env, t, others, depth)
    ensures WriteItems(env, t, items, depth, used) == WriteItems(env, t, others, depth, used)
    decreases MAX_DEPTH + 1 - depth, 6, |items|
  {
    hide Serves, Telling, Write, Canon, Settled, Tagged, WriteItems, CanonItems, SettledItems;
    assert |items| == |CanonItems(env, t, items, depth)| == |CanonItems(env, t, others, depth)| == |others|;
    if items != [] {
      OfItems(env, t, items, depth, used);
      OfItems(env, t, others, depth, used);
      NotTagged(env.catalog, t, MAX_DEPTH + 1 - depth);
      SameHead(Canon(env, t, items[0], depth), Canon(env, t, others[0], depth),
               CanonItems(env, t, items[1..], depth), CanonItems(env, t, others[1..], depth));
      SameBytes(env, t, items[0], others[0], None, depth, used);
      var b := Write(env, t, items[0], None, depth, used).value;
      SameItems(env, t, items[1..], others[1..], depth, used + |b|);
    }
  }

  lemma SameHead(a: J.Json, b: J.Json, x: seq<J.Json>, y: seq<J.Json>)
    requires [a] + x == [b] + y
    ensures a == b && x == y
  {
    assert a == ([a] + x)[0] == ([b] + y)[0] == b;
    assert x == ([a] + x)[1..] == ([b] + y)[1..] == y;
  }

  lemma SameUnion(env: Env, t: Type, v: J.Json, w: J.Json, tag: Option<J.Json>, depth: nat, used: nat)
    requires Serves(env) && Telling(env.host) && depth <= MAX_DEPTH && !IsLeaf(t) && t in env.catalog
    requires env.catalog[t].Union?
    requires WriteUnion(env, t, env.catalog[t].fields, v, tag, depth, used).Good?
    requires WriteUnion(env, t, env.catalog[t].fields, w, tag, depth, used).Good?
    requires CanonUnion(env, env.catalog[t].fields, v, depth) == CanonUnion(env, env.catalog[t].fields, w, depth)
    ensures WriteUnion(env, t, env.catalog[t].fields, v, tag, depth, used)
         == WriteUnion(env, t, env.catalog[t].fields, w, tag, depth, used)
    decreases MAX_DEPTH + 1 - depth, 3, 0
  {
    hide Serves, Telling, Write, Canon, Settled, SettledUnion, MemberNamed, FixedSize, Variable, IsLeaf, Tagged,
         WriteUnion, CanonUnion;
    var fields := env.catalog[t].fields;
    MembersAreGood(env, t);
    OfMember(env, t, fields, v, tag, depth, used);
    OfMember(env, t, fields, w, tag, depth, used);
    var name, other := Sorted(v.m.Keys)[0], Sorted(w.m.Keys)[0];
    var member := MemberNamed(fields, name).value;
    SameKeys(name, Canon(env, member.type_, v.m[name], depth + 1), other,
             Canon(env, MemberNamed(fields, other).value.type_, w.m[other], depth + 1));
    MemberIsThere(fields, name);
    assert !Tagged(env.catalog, member.type_);
    NotTagged(env.catalog, member.type_, MAX_DEPTH - depth);
    SameBytes(env, member.type_, v.m[name], w.m[other], None, depth + 1, 0);
  }

  lemma SameKeys(a: Text, x: J.Json, b: Text, y: J.Json)
    requires J.Obj(map[a := x]) == J.Obj(map[b := y])
    ensures a == b && x == y
  {
    assert a in map[a := x] && a in map[b := y];
  }

  // ---- Structs ----

  /** The fields that were written. */
  ghost function Written(env: Env, t: Type, v: J.Json, depth: nat): Members
    requires t in env.catalog && env.catalog[t].Struct? && depth <= MAX_DEPTH
  {
    Whole(env, env.catalog[t].fields, |env.catalog[t].fields|, Start(t, env.catalog[t].fields, v), depth)
  }

  /** Texts that are spelled alike stand for the same fields. */
  lemma SameSpelling(env: Env, t: Type, v: J.Json, w: J.Json, tag: Option<J.Json>, depth: nat, used: nat)
    requires Serves(env) && Telling(env.host) && depth <= MAX_DEPTH
    requires !IsLeaf(t) && t in env.catalog && env.catalog[t].Struct?
    requires Write(env, t, v, tag, depth, used).Good? && Write(env, t, w, tag, depth, used).Good?
    requires Canon(env, t, v, depth) == Canon(env, t, w, depth)
    ensures var lengths := Counts(env.catalog[t].fields);
            Written(env, t, v, depth) - lengths == Written(env, t, w, depth) - lengths
  {
    hide Serves, Telling, Write, Canon, IsLeaf, Whole, Start, Counts, Projected, Lifted, FitsFamily;
    CanonOfStruct(env, t, v, depth);
    CanonOfStruct(env, t, w, depth);
    TextRead(env, t, v, tag, depth, used);
    TextRead(env, t, w, tag, depth, used);
    if IsPrefix(t) {
      PrefixApart(env, t, v, w, tag, depth, used);
    }
  }

  lemma PrefixMembers(env: Env, t: Type, v: J.Json, tag: Option<J.Json>, depth: nat,
                      used: nat) returns (ip: Text, n: nat)
    requires Serves(env) && depth <= MAX_DEPTH && IsPrefix(t)
    requires t in env.catalog && env.catalog[t].Struct? && Write(env, t, v, tag, depth, used).Good?
    ensures Written(env, t, v, depth) - Counts(env.catalog[t].fields) == map[ADDRESS := J.Str(ip), LEN := J.Num(n)]
    ensures Projected(t, map[ADDRESS := J.Str(ip), LEN := J.Num(n)]) == Good(J.Str(ip + [SLASH] + Decimal(n)))
  {
    hide UpToNul, Parsed, Decimal;
    hide Ascii, Whole, Canon, Write, WriteFields, GoodFields, Prepared, Serves, Lifted, Projected, Counts, Start;
    FieldsAreGood(env, t);
    var fields := env.catalog[t].fields;
    OfStruct(env, t, v, tag, depth, used);
    LiftedPrefixParts(t, v);
    var start := Lifted(t, v).value.m;
    PreparedPlain(fields, start);
    PrefixFields(env, t, start, tag, depth, used);
    ip, n := Canon(env, fields[0].type_, start[ADDRESS], depth + 1).s, start[LEN].n;
    PrefixSpelled(t, ip, n);
  }

  lemma PrefixApart(env: Env, t: Type, v: J.Json, w: J.Json, tag: Option<J.Json>, depth: nat, used: nat)
    requires Serves(env) && depth <= MAX_DEPTH && IsPrefix(t)
    requires t in env.catalog && env.catalog[t].Struct?
    requires Write(env, t, v, tag, depth, used).Good? && Write(env, t, w, tag, depth, used).Good?
    requires var lengths := Counts(env.catalog[t].fields);
             Projected(t, Written(env, t, v, depth) - lengths) == Projected(t, Written(env, t, w, depth) - lengths)
    ensures var lengths := Counts(env.catalog[t].fields);
            Written(env, t, v, depth) - lengths == Written(env, t, w, depth) - lengths
  {
    hide Written, Write, Serves, Projected, Decimal, Counts, Ascii;
    var ip, n := PrefixMembers(env, t, v, tag, depth, used);
    var ip', m := PrefixMembers(env, t, w, tag, depth, used);
    SameParts(ip, n, ip', m);
  }

  lemma SameParts(ip: Text, n: nat, other: Text, m: nat)
    requires ip + [SLASH] + Decimal(n) == other + [SLASH] + Decimal(m)
    ensures ip == other && n == m
  {
    hide Decimal, Parsed, LastSlash;
    NoSlash(n);
    NoSlash(m);
    LastSlashOf(ip, Decimal(n));
    LastSlashOf(other, Decimal(m));
    var text := ip + [SLASH] + Decimal(n);
    assert text[..|ip|] == ip && text[|ip| + 1..] == Decimal(n);
    assert text[..|other|] == other && text[|other| + 1..] == Decimal(m);
    ParsedDecimal(n, false);
    ParsedDecimal(m, false);
  }

  lemma SameStruct(env: Env, t: Type, v: J.Json, w: J.Json, tag: Option<J.Json>, depth: nat, used: nat)
    requires Serves(env) && Telling(env.host) && depth <= MAX_DEPTH && (t == FibPathNh ==> tag.Some?)
    requires !IsLeaf(t) && t in env.catalog && env.catalog[t].Struct?
    requires Write(env, t, v, tag, depth, used).Good? && Write(env, t, w, tag, depth, used).Good?
    requires Canon(env, t, v, depth) == Canon(env, t, w, depth)
    ensures Write(env, t, v, tag, depth, used) == Write(env, t, w, tag, depth, used)
    decreases MAX_DEPTH + 1 - depth, 3, |env.catalog[t].fields| + 1
  {
    hide Serves, Telling, Write, Canon, WriteFields, Whole, GoodFields, Prepared, Lifted, Projected, IsLeaf, Counts,
         Filled, AllItems, Start, GoodText, Tagged, Distinct, LengthsFollow, Agrees, FirstNames, FitsFamily;
    var fields := env.catalog[t].fields;
    FieldsAreGood(env, t);
    GoodIsDistinct(env.catalog, t, fields);
    SameSpelling(env, t, v, w, tag, depth, used);
    WrittenAgain(env, t, v, tag, depth, used);
    WrittenAgain(env, t, w, tag, depth, used);
    FilledStart(env.catalog, fields, Start(t, fields, v));
    FilledStart(env.catalog, fields, Start(t, fields, w));
    var start, begin := Start(t, fields, v), Start(t, fields, w);
    SameFields(env, t, fields, 0, start, begin, start, begin, tag, depth, used);
  }

  /** The object that was written, and that it follows from what is left without the lengths. */
  lemma WrittenAgain(env: Env, t: Type, v: J.Json, tag: Option<J.Json>, depth: nat, used: nat)
    requires Serves(env) && depth <= MAX_DEPTH
    requires !IsLeaf(t) && t in env.catalog && env.catalog[t].Struct? && Write(env, t, v, tag, depth, used).Good?
    ensures var fields := env.catalog[t].fields;
            var start := Start(t, fields, v);
            && Write(env, t, v, tag, depth, used) == WriteFields(env, t, fields, 0, start, tag, depth, used)
            && AllItems(env.catalog, fields, start)
            && Prepared(fields, Written(env, t, v, depth) - Counts(fields)) == Good(Written(env, t, v, depth))
  {
    hide Serves, Write, WriteFields, Whole, GoodFields, Prepared, Lifted, IsLeaf, Counts, Filled, AllItems, Start,
         GoodText, Tagged, Distinct, LengthsFollow, Agrees, FirstNames;
    var fields := env.catalog[t].fields;
    OfStruct(env, t, v, tag, depth, used);
    FieldsAreGood(env, t);
    var start := Start(t, fields, v);
    GoodIsDistinct(env.catalog, t, fields);
    ItemsGiven(env, t, fields, start, tag, depth, used);
    WholeHolds(env, fields, |fields|, start, depth);
    LengthsHold(env, t, fields, start, tag, depth, used);
    PreparedAgain(env, t, fields, Written(env, t, v, depth));
  }

  // ---- Fields ----

  lemma {:induction false} SameFields(env: Env, t: Type, fields: seq<Field>, i: nat, start: Members, begin: Members,
                                      members: Members, others: Members, tag: Option<J.Json>, depth: nat, used: nat)
    requires Serves(env) && Telling(env.host) && depth <= MAX_DEPTH && i <= |fields|
    requires GoodFields(env.catalog, t, fields)
    requires AllItems(env.catalog, fields, start) && AllItems(env.catalog, fields, begin)
    requires t == FibPathNh ==> tag.Some?
    requires Filled(env.catalog, fields, i, start, members) && Filled(env.catalog, fields, i, begin, others)
    requires Whole(env, fields, |fields|, start, depth) == Whole(env, fields, |fields|, begin, depth)
    requires WriteFields(env, t, fields, i, members, tag, depth, used).Good?
    requires WriteFields(env, t, fields, i, others, tag, depth, used).Good?
    ensures WriteFields(env, t, fields, i, members, tag, depth, used)
         == WriteFields(env, t, fields, i, others, tag, depth, used)
    decreases MAX_DEPTH + 1 - depth, 3, |fields| - i
  {
    hide Serves, Telling, WriteField, WriteFields, CanonField, ItemOf, GoodFields, Filled, Whole, Distinct, AllItems;
    GoodIsDistinct(env.catalog, t, fields);
    if i == |fields| {
      NoMoreFields(env, t, fields, members, tag, [], depth, used);
      NoMoreFields(env, t, fields, others, tag, [], depth, used);
    } else {
      ItemGiven(env.catalog, fields, start, i);
      ItemGiven(env.catalog, fields, begin, i);
      FilledNext(env.catalog, fields, i, start, members);
      FilledNext(env.catalog, fields, i, begin, others);
      var item, other := ItemOf(env.catalog, fields[i], start).value, ItemOf(env.catalog, fields[i], begin).value;
      OfFields(env, t, fields, i, members, item, tag, depth, used);
      OfFields(env, t, fields, i, others, other, tag, depth, used);
      SameTurn(env, t, fields, i, start, begin, members, others, tag, depth, used);
      var more, rest := members[fields[i].name := item], others[fields[i].name := other];
      var b := WriteField(env, t, fields[i], more, item, tag, depth, used).value;
      SameFields(env, t, fields, i + 1, start, begin, more, rest, tag, depth, used + |b|);
    }
  }

  lemma SameTurn(env: Env, t: Type, fields: seq<Field>, i: nat, start: Members, begin: Members, members: Members,
                 others: Members, tag: Option<J.Json>, depth: nat, used: nat)
    requires Serves(env) && Telling(env.host) && depth <= MAX_DEPTH && i < |fields|
    requires GoodFields(env.catalog, t, fields)
    requires AllItems(env.catalog, fields, start) && AllItems(env.catalog, fields, begin)
    requires t == FibPathNh ==> tag.Some?
    requires Filled(env.catalog, fields, i, start, members) && Filled(env.catalog, fields, i, begin, others)
    requires Whole(env, fields, |fields|, start, depth) == Whole(env, fields, |fields|, begin, depth)
    requires var item, f := ItemOf(env.catalog, fields[i], start).value, fields[i];
             WriteField(env, t, f, members[f.name := item], item, tag, depth, used).Good?
    requires var item, f := ItemOf(env.catalog, fields[i], begin).value, fields[i];
             WriteField(env, t, f, others[f.name := item], item, tag, depth, used).Good?
    ensures var item, other := ItemOf(env.catalog, fields[i], start).value, ItemOf(env.catalog, fields[i], begin).value;
            var f := fields[i];
            WriteField(env, t, f, members[f.name := item], item, tag, depth, used)
            == WriteField(env, t, f, others[f.name := other], other, tag, depth, used)
    decreases MAX_DEPTH + 1 - depth, 2, 1
  {
    hide Serves, Telling, WriteField, CanonField, ItemOf, Filled, Agrees, Tagged, ArrayCount, Chosen, Steady, IsCounter,
         Discriminator, Whole, Ascii;
    var f := fields[i];
    var item, other := ItemOf(env.catalog, f, start).value, ItemOf(env.catalog, f, begin).value;
    var whole := Whole(env, fields, |fields|, start, depth);
    GoodIsDistinct(env.catalog, t, fields);
    HoldsItem(env, fields, i, start, depth);
    HoldsItem(env, fields, i, begin, depth);
    WholeHolds(env, fields, |fields|, start, depth);
    WholeHolds(env, fields, |fields|, begin, depth);
    AgreesBefore(env, fields, i, start, whole, depth);
    AgreesBefore(env, fields, i, begin, whole, depth);
    if IsArray(f) {
      SameCount(env, t, fields, i, start, members, whole, item, depth);
      SameCount(env, t, fields, i, begin, others, whole, other, depth);
    } else if !FixedText(f) {
      SameChoice(env, t, fields, i, start, members, whole, item, tag, depth);
      SameChoice(env, t, fields, i, begin, others, whole, other, tag, depth);
      if Tagged(env.catalog, f.type_) && Chosen(t, f, members[f.name := item], tag).Good? {
        ChoiceMade(env, t, fields, i, start, members, item, tag);
      }
    }
    TextNotTagged(env.catalog, f);
    SameField(env, t, f, members[f.name := item], others[f.name := other], item, other, tag, depth, used);
  }

  lemma {:induction false} SameField(env: Env, t: Type, f: Field, members: Members, others: Members, item: J.Json,
                                     other: J.Json, tag: Option<J.Json>, depth: nat, used: nat)
    requires Serves(env) && Telling(env.host) && depth <= MAX_DEPTH
    requires WriteField(env, t, f, members, item, tag, depth, used).Good?
    requires WriteField(env, t, f, others, other, tag, depth, used).Good?
    requires SameLookups(env, t, f, members, others, tag)
    requires CanonField(env, f, item, depth) == CanonField(env, f, other, depth)
    requires Tagged(env.catalog, f.type_) ==>
               !IsArray(f) && (Chosen(t, f, members, tag).Good? ==> Chosen(t, f, members, tag).value.Some?)
    ensures WriteField(env, t, f, members, item, tag, depth, used)
         == WriteField(env, t, f, others, other, tag, depth, used)
    decreases MAX_DEPTH + 1 - depth, 2, 0
  {
    hide Serves, Telling, Write, Canon, WriteItems, CanonItems, Tagged, ArrayCount, Chosen, WriteField, CanonField,
         Settled, SettledItems, SettledField;
    if FixedText(f) {
      OfTextField(env, t, f, members, others, item, tag, depth, used);
      OfTextField(env, t, f, others, others, other, tag, depth, used);
    } else if IsArray(f) {
      OfArrayField(env, t, f, members, item, tag, depth, used);
      OfArrayField(env, t, f, others, other, tag, depth, used);
      SameItems(env, f.type_, item.items, other.items, depth + 1, used);
    } else {
      FieldIsChosen(env, t, f, members, item, tag, depth, used);
      FieldIsChosen(env, t, f, others, other, tag, depth, used);
      if !Tagged(env.catalog, f.type_) {
        NotTagged(env.catalog, f.type_, MAX_DEPTH - depth);
      }
      OfField(env, t, f, members, item, [], tag, depth, used);
      OfField(env, t, f, others, other, [], tag, depth, used);
      SameBytes(env, f.type_, item, other, Chosen(t, f, members, tag).value, depth + 1, used);
    }
  }

  lemma OfTextField(env: Env, t: Type, f: Field, members: Members, others: Members, item: J.Json, tag: Option<J.Json>,
                    depth: nat, used: nat)
    requires depth <= MAX_DEPTH && FixedText(f)
    ensures CanonField(env, f, item, depth) == item
    ensures WriteField(env, t, f, members, item, tag, depth, used)
         == WriteField(env, t, f, others, item, tag, depth, used)
  {
    hide Write, Canon, WriteItems, CanonItems;
  }
}
