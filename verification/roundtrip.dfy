/** What is written is read back in canonical form, with nothing before or after it taken. */
module RoundTrips {
  import opened Text
  import opened Catalogs
  import opened Leaves
  import opened Codec
  import opened SymbolTables
  import opened CodecSizes
  import opened Canonical
  import J = JsonText

  // ---- Fields as their turn comes ----

  ghost predicate Distinct(fields: seq<Field>) {
    forall i, j :: 0 <= i < j < |fields| ==> fields[i].name != fields[j].name
  }

  function FirstNames(fields: seq<Field>, n: nat): set<Text>
    requires n <= |fields|
  {
    set j | 0 <= j < n :: fields[j].name
  }

  lemma NoNames(fields: seq<Field>)
    ensures FirstNames(fields, 0) == {}
  {
  }

  lemma NextName(fields: seq<Field>, i: nat)
    requires i < |fields| && Distinct(fields)
    ensures FirstNames(fields, i + 1) == FirstNames(fields, i) + {fields[i].name}
    ensures fields[i].name !in FirstNames(fields, i)
    ensures forall j :: 0 <= j < i ==> fields[j].name in FirstNames(fields, i)
  {
  }

  /** The caller's object with the defaults of the first `i` fields filled in. */
  ghost predicate Filled(c: Catalog, fields: seq<Field>, i: nat, start: Members, members: Members)
    requires i <= |fields|
  {
    && (forall k :: k in start ==> k in members && members[k] == start[k])
    && (forall j :: 0 <= j < i ==>
          ItemOf(c, fields[j], start).Good? && fields[j].name in members
            && members[fields[j].name] == ItemOf(c, fields[j], start).value)
    && members.Keys <= start.Keys + FirstNames(fields, i)
  }

  lemma FilledStart(c: Catalog, fields: seq<Field>, start: Members)
    ensures Filled(c, fields, 0, start, start)
  {
  }

  lemma FilledNext(c: Catalog, fields: seq<Field>, i: nat, start: Members, members: Members)
    requires i < |fields| && Distinct(fields) && Filled(c, fields, i, start, members)
    ensures ItemOf(c, fields[i], members) == ItemOf(c, fields[i], start)
    ensures var item := ItemOf(c, fields[i], start);
            item.Good? ==> Filled(c, fields, i + 1, start, members[fields[i].name := item.value])
  {
    hide PublicDefault, FirstNames, Distinct;
    NextName(fields, i);
  }

  /** If the fields can be written, each of them can, from an object filled in up to it. */
  lemma {:induction false} FieldWritten(env: Env, t: Type, fields: seq<Field>, i: nat, start: Members, members: Members,
                                        tag: Option<J.Json>, depth: nat, used: nat, j: nat)
                                          returns (at: Members, before: nat)
    requires i <= j < |fields| && depth <= MAX_DEPTH && Distinct(fields)
    requires Filled(env.catalog, fields, i, start, members)
    requires WriteFields(env, t, fields, i, members, tag, depth, used).Good?
    ensures ItemOf(env.catalog, fields[j], start).Good? && Filled(env.catalog, fields, j + 1, start, at)
    ensures WriteField(env, t, fields[j], at, ItemOf(env.catalog, fields[j], start).value, tag, depth, before).Good?
    decreases j - i
  {
    hide WriteField, ItemOf, Filled;
    FilledNext(env.catalog, fields, i, start, members);
    var item := ItemOf(env.catalog, fields[i], start).value;
    var more := members[fields[i].name := item];
    if i == j {
      at, before := more, used;
    } else {
      var b := WriteField(env, t, fields[i], more, item, tag, depth, used).value;
      at, before := FieldWritten(env, t, fields, i + 1, start, more, tag, depth, used + |b|, j);
    }
  }

  ghost predicate AllItems(c: Catalog, fields: seq<Field>, start: Members) {
    forall j :: 0 <= j < |fields| ==> ItemOf(c, fields[j], start).Good?
  }

  lemma ItemsGiven(env: Env, t: Type, fields: seq<Field>, start: Members, tag: Option<J.Json>, depth: nat, used: nat)
    requires depth <= MAX_DEPTH && Distinct(fields) && WriteFields(env, t, fields, 0, start, tag, depth, used).Good?
    ensures AllItems(env.catalog, fields, start)
  {
    hide WriteFields, ItemOf, WriteField;
    FilledStart(env.catalog, fields, start);
    forall j | 0 <= j < |fields| ensures ItemOf(env.catalog, fields[j], start).Good? {
      var at, before := FieldWritten(env, t, fields, 0, start, start, tag, depth, used, j);
    }
  }

  /** The object agrees with the fields written so far, whatever else it holds. */
  ghost predicate Agrees(env: Env, fields: seq<Field>, i: nat, start: Members, other: Members, depth: nat)
    requires i <= |fields| && depth <= MAX_DEPTH
  {
    forall j :: 0 <= j < i ==>
      && ItemOf(env.catalog, fields[j], start).Good? && fields[j].name in other
      && other[fields[j].name] == CanonField(env, fields[j], ItemOf(env.catalog, fields[j], start).value, depth)
  }

  /** What the canonical object holds: every field, once. */
  lemma {:induction false} WholeHolds(env: Env, fields: seq<Field>, n: nat, start: Members, depth: nat)
    requires n <= |fields| && depth <= MAX_DEPTH && Distinct(fields) && AllItems(env.catalog, fields, start)
    ensures var whole := Whole(env, fields, n, start, depth);
            && Agrees(env, fields, n, start, whole, depth)
            && whole.Keys == FirstNames(fields, n)
    decreases n
  {
    hide CanonField, ItemOf, Distinct, FirstNames;
    if n == 0 {
      NoNames(fields);
    } else {
      WholeHolds(env, fields, n - 1, start, depth);
      NextName(fields, n - 1);
    }
  }

  lemma SteadyStays(env: Env, f: Field, item: J.Json, depth: nat)
    requires depth <= MAX_DEPTH && Steady(env.catalog, f)
    ensures CanonField(env, f, item, depth) == item
  {
    hide CanonItems, CanonUnion, Whole, CanonDefined, CanonLeaf, IsLeaf;
    assert CanonField(env, f, item, depth) == Canon(env, f.type_, item, depth + 1);
    if IsInt(f.type_) || f.type_ == Boolean {
      PlainCanon(env.host, f.type_, item);
    } else {
      EnumeratorCanon(env, f.type_, item);
      assert depth < MAX_DEPTH ==>
          Canon(env, f.type_, item, depth + 1) == CanonDefined(env, f.type_, env.catalog[f.type_], item, depth + 1);
    }
  }

  lemma PlainCanon(h: Host, t: Type, item: J.Json)
    requires IsInt(t) || t == Boolean
    ensures IsLeaf(t) && CanonLeaf(h, t, item) == item
  {
  }

  lemma EnumeratorCanon(env: Env, t: Type, item: J.Json)
    requires t in env.catalog && env.catalog[t].Enumeration? && !env.catalog[t].flags
    ensures forall depth: nat :: depth <= MAX_DEPTH ==> CanonDefined(env, t, env.catalog[t], item, depth) == item
  {
    hide Canon, CanonItems, CanonUnion, Whole;
  }

  lemma CounterStays(env: Env, f: Field, item: J.Json, depth: nat)
    requires depth <= MAX_DEPTH && IsCounter(f)
    ensures CanonField(env, f, item, depth) == item
  {
    SteadyStays(env, f, item, depth);
  }

  // ---- What the field loop looks up is the same on both sides ----

  lemma SameKey(env: Env, fields: seq<Field>, i: nat, j: nat, start: Members, members: Members, other: Members,
                depth: nat)
    requires j < i < |fields| && depth <= MAX_DEPTH && Filled(env.catalog, fields, i, start, members)
    requires Agrees(env, fields, i, start, other, depth)
    requires Steady(env.catalog, fields[j]) || IsCounter(fields[j])
    ensures fields[j].name in members && fields[j].name in other && members[fields[j].name] == other[fields[j].name]
  {
    hide ItemOf, CanonField;
    var item := ItemOf(env.catalog, fields[j], start).value;
    if IsCounter(fields[j]) {
      CounterStays(env, fields[j], item, depth);
    } else {
      SteadyStays(env, fields[j], item, depth);
    }
  }

  lemma SameCount(env: Env, within: Type, fields: seq<Field>, i: nat, start: Members, members: Members, other: Members,
                  item: J.Json, depth: nat)
    requires i < |fields| && depth <= MAX_DEPTH && Filled(env.catalog, fields, i, start, members)
    requires Agrees(env, fields, i, start, other, depth) && Distinct(fields)
    requires GoodField(env.catalog, within, fields, i)
    requires IsArray(fields[i])
    ensures ArrayCount(fields[i], members[fields[i].name := item]) == ArrayCount(fields[i], other)
  {
    hide Filled, Agrees, Tagged, Discriminator;
    var f := fields[i];
    if f.count.Some? {
      var j: nat :| Earlier(fields, i, j, f.count.value) && IsCounter(fields[j]);
      SameKey(env, fields, i, j, start, members, other, depth);
    }
  }

  lemma DistinctAt(fields: seq<Field>, j: nat, i: nat)
    requires Distinct(fields) && j < i < |fields|
    ensures fields[j].name != fields[i].name
  {
  }

  lemma SameChoice(env: Env, within: Type, fields: seq<Field>, i: nat, start: Members, members: Members, other: Members,
                   item: J.Json, tag: Option<J.Json>, depth: nat)
    requires i < |fields| && depth <= MAX_DEPTH && Filled(env.catalog, fields, i, start, members)
    requires Agrees(env, fields, i, start, other, depth) && Distinct(fields)
    requires GoodField(env.catalog, within, fields, i)
    requires !IsArray(fields[i]) && !FixedText(fields[i])
    requires ChosenByTag(within, fields[i]) ==> tag.Some?
    ensures Chosen(within, fields[i], members[fields[i].name := item], tag) == Chosen(within, fields[i], other, tag)
  {
    hide Filled, Agrees, Ascii, Steady, Tagged, KeyOf, ChosenByTag, Distinct, CanonField, ItemOf, IsCounter, Chosen;
    var f := fields[i];
    if !ChosenByTag(within, f) && KeyOf(within, f).Some? {
      var j: nat :| Earlier(fields, i, j, KeyOf(within, f).value) && Steady(env.catalog, fields[j]);
      DistinctAt(fields, j, i);
      SameKey(env, fields, i, j, start, members, other, depth);
    }
    ChosenAlike(within, f, members, other, item, tag);
  }

  /** A choice depends on the tag or on one key only. */
  lemma ChosenAlike(within: Type, f: Field, members: Members, other: Members, item: J.Json, tag: Option<J.Json>)
    requires var key := KeyOf(within, f);
             || (ChosenByTag(within, f) && tag.Some?)
             || (!ChosenByTag(within, f) && key.None?)
             || (!ChosenByTag(within, f) && key.value != f.name && key.value in members && key.value in other
                 && members[key.value] == other[key.value])
    ensures Chosen(within, f, members[f.name := item], tag) == Chosen(within, f, other, tag)
  {
    hide Ascii, Discriminator;
  }
}
