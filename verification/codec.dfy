/** The two directions of the schema-driven conversion between JSON and native payloads. */
module Codec {
  import opened Text
  import opened Catalogs
  import opened Integers
  import opened Leaves
  import J = JsonText

  type Members = map<Text, J.Json>

  function Unsigned64(n: int): nat { n % 0x1_0000_0000_0000_0000 }

  // ---- Symbols ----

  function NamesOf(values: map<Text, int>): seq<Text> { Sorted(values.Keys) }

  /** The bits of some named flags; each must be a name and none may repeat. */
  function Gathered(values: map<Text, int>, names: seq<J.Json>): Option<nat> {
    if names == [] then Some(0)
    else
      var first := names[0];
      if !first.Str? || first.s !in values || first in names[1..] then None
      else
        match Gathered(values, names[1..])
        case None => None
        case Some(bits) => Some(Integers.Or(Unsigned64(values[first.s]), bits))
  }

  predicate Shows(values: map<Text, int>, name: Text, bits: nat)
    requires name in values
  {
    Single(Unsigned64(values[name])) && Meet(bits, Unsigned64(values[name])) != 0
  }

  /** The single-bit names among these that are set, in this order. */
  function NamedFlags(values: map<Text, int>, names: seq<Text>, bits: nat): seq<J.Json>
    requires forall k :: k in names ==> k in values
  {
    if names == [] then []
    else (if Shows(values, names[0], bits) then [J.Str(names[0])] else []) + NamedFlags(values, names[1..], bits)
  }

  /** The bits no single-bit name accounts for. */
  function Unnamed(values: map<Text, int>, names: seq<Text>, bits: nat, remaining: nat): nat
    requires forall k :: k in names ==> k in values
  {
    if names == [] then remaining
    else
      var shown := Shows(values, names[0], bits);
      Unnamed(values, names[1..], bits, if shown then Without(remaining, Unsigned64(values[names[0]])) else remaining)
  }

  predicate Means(value: int, numeric: J.Json, bits: nat) { numeric == J.Num(value) || (value >= 0 && value == bits) }

  /** The first name that has this value. */
  function SymbolOf(values: map<Text, int>, names: seq<Text>, numeric: J.Json, bits: nat): Option<Text>
    requires forall k :: k in names ==> k in values
  {
    if names == [] then None
    else if Means(values[names[0]], numeric, bits) then Some(names[0])
    else SymbolOf(values, names[1..], numeric, bits)
  }

  /** The number that stands for an enumerator or a set of flags, in the form its base type takes. */
  function Numeric(base: Type, values: map<Text, int>, flags: bool, v: J.Json): Coded<J.Json> {
    if flags then
      (if !v.Arr? || Gathered(values, v.items).None? then Bad(InvalidParams)
       else Good(InForm(base, Gathered(values, v.items).value)))
    else if !v.Str? || v.s !in values then Bad(InvalidParams)
    else Good(InForm(base, values[v.s]))
  }

  function InForm(base: Type, n: int): J.Json { if base == U64 || base == I64 then J.Str(Decimal(n)) else J.Num(n) }

  function Symbolic(values: map<Text, int>, flags: bool, numeric: J.Json): Coded<J.Json> {
    var bits := if numeric.Str? then Parsed(numeric.s, false) else if numeric.Num? then Some(Unsigned64(numeric.n))
      else None;
    if bits.None? || bits.value < 0 then Bad(InvalidReply)
    else
      var names := NamesOf(values);
      if flags then
        (if Unnamed(values, names, bits.value, bits.value) != 0 then Bad(UnknownEnum)
         else Good(J.Arr(NamedFlags(values, names, bits.value))))
      else
        match SymbolOf(values, names, numeric, bits.value)
        case None => Bad(UnknownEnum)
        case Some(name) => Good(J.Str(name))
  }

  // ---- Defaults ----

  /** A default as callers write it: by name where the type has names. */
  function PublicDefault(c: Catalog, f: Field, default_: J.Json): J.Json {
    if f.type_ == Boolean && default_ == J.Str(Ascii("true")) then J.Bool(true)
    else if f.type_ == Boolean && default_ == J.Str(Ascii("false")) then J.Bool(false)
    else if f.type_ == Interface && default_ == J.Num(EVERY) then J.Str(ALL)
    else if f.type_ in c && c[f.type_].Enumeration? && c[f.type_].flags && default_ == J.Num(0) then J.Arr([])
    else if f.type_ in c && c[f.type_].Enumeration? && default_.Num?
      && SymbolNamed(c[f.type_].values, NamesOf(c[f.type_].values), default_.n).Some? then
      J.Str(SymbolNamed(c[f.type_].values, NamesOf(c[f.type_].values), default_.n).value)
    else if IsLong(f.type_) && default_.Num? then J.Str(Decimal(default_.n))
    else default_
  }

  function SymbolNamed(values: map<Text, int>, names: seq<Text>, n: int): Option<Text>
    requires forall k :: k in names ==> k in values
  {
    if names == [] then None else if values[names[0]] == n then Some(names[0]) else SymbolNamed(values, names[1..], n)
  }

  // ---- Addresses and prefixes are written as text ----

  const SLASH: byte := 47

  function LastSlash(t: Text): Option<nat> {
    if t == [] then None else if t[|t| - 1] == SLASH then Some(|t| - 1) else LastSlash(t[..|t| - 1])
  }

  lemma {:induction false} LastSlashBound(t: Text)
    ensures LastSlash(t).Some? ==> LastSlash(t).value < |t|
  {
    if t != [] {
      LastSlashBound(t[..|t| - 1]);
    }
  }

  /** The object an address or a prefix stands for. */
  function Lifted(t: Type, v: J.Json): Coded<J.Json> {
    if t == Address then
      (if !v.Str? then Bad(InvalidParams)
       else if J.COLON in v.s then Good(J.Obj(map[AF := J.Str(ADDRESS_IP6), UN := J.Obj(map[IP6 := v])]))
       else Good(J.Obj(map[AF := J.Str(ADDRESS_IP4), UN := J.Obj(map[IP4 := v])])))
    else if IsPrefix(t) then (if !v.Str? then Bad(InvalidParams) else LiftedPrefix(v.s))
    else Good(v)
  }

  function LiftedPrefix(text: Text): Coded<J.Json> {
    LastSlashBound(text);
    match LastSlash(text)
    case None => Bad(InvalidParams)
    case Some(slash) =>
      var ip := text[..slash];
      match Parsed(text[slash + 1..], false)
      case None => Bad(InvalidParams)
      case Some(length) =>
        if length > (if J.COLON in ip then 128 else 32) then Bad(InvalidParams)
        else Good(J.Obj(map[ADDRESS := J.Str(ip), LEN := J.Num(length)]))
  }

  /** The text for a decoded address or prefix. */
  function Projected(t: Type, members: Members): Coded<J.Json> {
    if t == Address then
      (if UN in members && members[UN].Obj? && members[UN].m != map[]
       then Good(members[UN].m[Sorted(members[UN].m.Keys)[0]])
       else Bad(Unsupported))
    else if IsPrefix(t) then
      (if ADDRESS in members && members[ADDRESS].Str? && LEN in members
       then Good(J.Str(members[ADDRESS].s + [SLASH] + J.Dump(members[LEN])))
       else Bad(Unsupported))
    else Good(J.Obj(members))
  }

  // ---- Fields ----

  predicate IsNamed(fields: seq<Field>, name: Text) { exists i :: 0 <= i < |fields| && fields[i].name == name }

  function Counts(fields: seq<Field>): set<Text> {
    set i | 0 <= i < |fields| && fields[i].count.Some? :: fields[i].count.value
  }

  /** Lengths of counted arrays join the object before anything is written. */
  function Counted(fields: seq<Field>, i: nat, members: Members): Coded<Members>
    requires i <= |fields|
    decreases |fields| - i
  {
    if i == |fields| then Good(members)
    else if fields[i].count.None? then Counted(fields, i + 1, members)
    else if fields[i].name !in members || !members[fields[i].name].Arr? then Bad(InvalidParams)
    else Counted(fields, i + 1, members[fields[i].count.value := J.Num(|members[fields[i].name].items|)])
  }

  /** A caller gives named fields only, and none that is derived. */
  function Prepared(fields: seq<Field>, members: Members): Coded<Members> {
    if exists k :: k in members && (!IsNamed(fields, k) || k in Counts(fields)) then Bad(InvalidParams)
      else Counted(fields, 0, members)
  }

  function ItemOf(c: Catalog, f: Field, members: Members): Coded<J.Json> {
    if f.name in members then Good(members[f.name])
    else if f.default_.Some? then Good(PublicDefault(c, f, f.default_.value))
    else Bad(InvalidParams)
  }

  predicate IsArray(f: Field) { f.type_ != Characters && f.length.Some? }

  function ArrayCount(f: Field, members: Members): Coded<nat>
    requires f.length.Some?
  {
    var count :=
      if f.count.None? then Good(f.length.value)
      else if f.count.value !in members || !members[f.count.value].Num? then Bad(Unsupported)
      else Good(Unsigned64(members[f.count.value].n));
    if count.Good? && count.value > PAYLOAD_BYTES then Bad(InvalidParams) else count
  }

  /** The discriminator of a field, and the value a union under it is chosen by. */
  function Discriminator(f: Field): Option<Text> {
    if f.discriminator.Some? then (if f.discriminator.value == [] then None else f.discriminator)
    else if f.type_ == AddressUnion then Some(AF)
    else None
  }

  function Lookup(members: Members, key: Option<Text>): Option<J.Json> {
    if key.Some? && key.value in members then Some(members[key.value]) else None
  }

  function Chosen(within: Type, f: Field, members: Members, tag: Option<J.Json>): Coded<Option<J.Json>> {
    if within == FibPathNh && f.name == ADDRESS && tag.Some? then
      (if tag.value == J.Str(PROTO_IP4) then Good(Some(J.Str(ADDRESS_IP4)))
       else if tag.value == J.Str(PROTO_IP6) then Good(Some(J.Str(ADDRESS_IP6)))
       else Bad(Unsupported))
    else if within == FibPath && f.name == NH then Good(Lookup(members, Some(PROTO)))
    else Good(Lookup(members, Discriminator(f)))
  }

  /** The last field of this name, or of this case. */
  function MemberNamed(fields: seq<Field>, name: Text): Option<Field>
    decreases |fields|
  {
    if fields == [] then None
    else if fields[|fields| - 1].name == name then Some(fields[|fields| - 1])
    else MemberNamed(fields[..|fields| - 1], name)
  }

  function MemberFor(fields: seq<Field>, tag: Option<J.Json>): Option<Field>
    decreases |fields|
  {
    if fields == [] || tag.None? then None
    else if fields[|fields| - 1].case_ == tag then Some(fields[|fields| - 1])
    else MemberFor(fields[..|fields| - 1], tag)
  }

  // ---- Writing ----

  /** Bytes join the payload unless it would exceed 1 MiB. */
  function Fit(b: Text, used: nat): Coded<Text> { if used + |b| > PAYLOAD_BYTES then Bad(TooLarge) else Good(b) }

  function WriteLeaf(h: Host, t: Type, v: J.Json, used: nat): Coded<Text>
    requires IsLeaf(t)
  {
    var b := if t == Characters then WriteText(v) else WriteFixed(h, t, v);
    if b.Good? then Fit(b.value, used) else b
  }

  /** What a value adds to a payload of `used` bytes. */
  function Write(env: Env, t: Type, v: J.Json, tag: Option<J.Json>, depth: nat, used: nat): Coded<Text>
    requires depth <= MAX_DEPTH + 1
    decreases MAX_DEPTH + 1 - depth, 5, 0
  {
    if depth > MAX_DEPTH then Bad(InvalidParams)
    else if IsLeaf(t) then WriteLeaf(env.host, t, v, used)
    else if t !in env.catalog then Bad(Unsupported)
    else WriteDefined(env, t, env.catalog[t], v, tag, depth, used)
  }

  function WriteDefined(env: Env, t: Type, d: Definition, v: J.Json, tag: Option<J.Json>, depth: nat,
                        used: nat): Coded<Text>
    requires depth <= MAX_DEPTH
    decreases MAX_DEPTH + 1 - depth, 4, 0
  {
    match d
    case Alias(base, None) => Write(env, base, v, tag, depth + 1, used)
    case Alias(base, Some(n)) =>
      if !v.Arr? || |v.items| != n then Bad(InvalidParams) else WriteItems(env, base, v.items, depth + 1, used)
    case Enumeration(base, values, flags) =>
      var numeric := Numeric(base, values, flags, v);
      if numeric.Bad? then Bad(numeric.why) else Write(env, base, numeric.value, None, depth + 1, used)
    case Union(fields) =>
      var lifted := Lifted(t, v);
      if lifted.Bad? then Bad(lifted.why) else WriteUnion(env, t, fields, lifted.value, tag, depth, used)
    case Struct(fields) =>
      var lifted := Lifted(t, v);
      if lifted.Bad? then Bad(lifted.why)
      else if !lifted.value.Obj? then Bad(InvalidParams)
      else
        var members := Prepared(fields, lifted.value.m);
        if members.Bad? then Bad(members.why) else WriteFields(env, t, fields, 0, members.value, tag, depth, used)
  }

  function WriteItems(env: Env, t: Type, items: seq<J.Json>, depth: nat, used: nat): Coded<Text>
    requires depth <= MAX_DEPTH + 1
    decreases MAX_DEPTH + 1 - depth, 6, |items|
  {
    if items == [] then Good([])
    else
      match Write(env, t, items[0], None, depth, used)
      case Bad(why) => Bad(why)
      case Good(b) =>
        match WriteItems(env, t, items[1..], depth, used + |b|)
        case Bad(why) => Bad(why)
        case Good(more) => Good(b + more)
  }

  function Resized(b: Text, size: nat): (r: Text)
    ensures |r| == size
  {
    if |b| >= size then b[..size] else Padded(b, size)
  }

  /** A union names one member; it takes the room of the largest. */
  function WriteUnion(env: Env, t: Type, fields: seq<Field>, v: J.Json, tag: Option<J.Json>, depth: nat,
                      used: nat): Coded<Text>
    requires depth <= MAX_DEPTH
    decreases MAX_DEPTH + 1 - depth, 3, 0
  {
    var size := FixedSize(env.catalog, t, 0);
    if size < 0 || Variable(env.catalog, t, 0) then Bad(Unsupported)
    else if !v.Obj? || |v.m| != 1 then Bad(InvalidParams)
    else
      var name := Sorted(v.m.Keys)[0];
      match MemberNamed(fields, name)
      case None => Bad(InvalidParams)
      case Some(member) =>
        if tag.Some? && member.case_.Some? && member.case_ != tag then Bad(InvalidParams)
        else
          match Write(env, member.type_, v.m[name], None, depth + 1, 0)
          case Bad(why) => Bad(why)
          case Good(b) => Fit(Resized(b, size), used)
  }

  /** The fields from the `i`th on. Defaults join the object as their turn comes. */
  function WriteFields(env: Env, t: Type, fields: seq<Field>, i: nat, members: Members, tag: Option<J.Json>, depth: nat,
                       used: nat): Coded<Text>
    requires i <= |fields| && depth <= MAX_DEPTH
    decreases MAX_DEPTH + 1 - depth, 3, |fields| - i
  {
    if i == |fields| then Good([])
    else
      var item := ItemOf(env.catalog, fields[i], members);
      if item.Bad? then Bad(item.why)
      else
        match WriteField(env, t, fields[i], members[fields[i].name := item.value], item.value, tag, depth, used)
        case Bad(why) => Bad(why)
        case Good(b) =>
          match WriteFields(env, t, fields, i + 1, members[fields[i].name := item.value], tag, depth, used + |b|)
          case Bad(why) => Bad(why)
          case Good(more) => Good(b + more)
  }

  function WriteField(env: Env, t: Type, f: Field, members: Members, item: J.Json, tag: Option<J.Json>, depth: nat,
                      used: nat): Coded<Text>
    requires depth <= MAX_DEPTH
    decreases MAX_DEPTH + 1 - depth, 2, 0
  {
    if FixedText(f) then
      (if f.length.value > PAYLOAD_BYTES || !item.Str? || |item.s| >= f.length.value || 0 in item.s
       then Bad(InvalidParams)
       else Fit(Padded(item.s, f.length.value), used))
    else if IsArray(f) then
      var count := ArrayCount(f, members);
      if count.Bad? then Bad(count.why)
      else if !item.Arr? || |item.items| != count.value then Bad(InvalidParams)
      else WriteItems(env, f.type_, item.items, depth + 1, used)
    else
      match Chosen(t, f, members, tag)
      case Bad(why) => Bad(why)
      case Good(chosen) => Write(env, f.type_, item, chosen, depth + 1, used)
  }

  // ---- One turn of each loop ----

  lemma OneItem(env: Env, t: Type, items: seq<J.Json>, depth: nat, used: nat)
    requires depth <= MAX_DEPTH + 1 && items != []
    ensures WriteItems(env, t, items, depth, used) == Then(Write(env, t, items[0], None, depth, used), (b: Text) =>
              WriteItems(env, t, items[1..], depth, used + |b|))
  {
    hide Write;
  }

  function Then(first: Coded<Text>, rest: Text -> Coded<Text>): Coded<Text> {
    match first
    case Bad(why) => Bad(why)
    case Good(b) => match rest(b) case Bad(why) => Bad(why) case Good(more) => Good(b + more)
  }

  lemma OneField(env: Env, t: Type, fields: seq<Field>, i: nat, members: Members, tag: Option<J.Json>, depth: nat,
                 used: nat)
    requires depth <= MAX_DEPTH && i < |fields|
    ensures var item := ItemOf(env.catalog, fields[i], members);
            WriteFields(env, t, fields, i, members, tag, depth, used)
            == if item.Bad? then Bad(item.why)
               else
                 var more := members[fields[i].name := item.value];
                 Then(WriteField(env, t, fields[i], more, item.value, tag, depth, used), (b: Text) =>
                   WriteFields(env, t, fields, i + 1, more, tag, depth, used + |b|))
  {
    hide WriteField, ItemOf;
  }

  // ---- Reading ----

  function ReadLeaf(h: Host, t: Type, b: Text): Coded<(J.Json, Text)>
    requires IsLeaf(t)
  {
    if t == Characters then ReadText(b)
    else if |b| < NativeSize(t) then Bad(InvalidReply)
    else
      match ReadFixed(h, t, b[..NativeSize(t)])
      case Bad(why) => Bad(why)
      case Good(v) => Good((v, b[NativeSize(t)..]))
  }

  /** A value at the front of a payload, and the bytes after it. */
  function Read(env: Env, t: Type, b: Text, tag: Option<J.Json>, depth: nat): Coded<(J.Json, Text)>
    requires depth <= MAX_DEPTH + 1
    decreases MAX_DEPTH + 1 - depth, 5, 0
  {
    if depth > MAX_DEPTH then Bad(InvalidParams)
    else if IsLeaf(t) then ReadLeaf(env.host, t, b)
    else if t !in env.catalog then Bad(Unsupported)
    else ReadDefined(env, t, env.catalog[t], b, tag, depth)
  }

  function ReadDefined(env: Env, t: Type, d: Definition, b: Text, tag: Option<J.Json>,
                       depth: nat): Coded<(J.Json, Text)>
    requires depth <= MAX_DEPTH
    decreases MAX_DEPTH + 1 - depth, 4, 0
  {
    match d
    case Alias(base, None) => Read(env, base, b, tag, depth + 1)
    case Alias(base, Some(n)) =>
      (match ReadItems(env, base, n, b, depth + 1)
       case Bad(why) => Bad(why)
       case Good((items, rest)) => Good((J.Arr(items), rest)))
    case Enumeration(base, values, flags) =>
      (match Read(env, base, b, None, depth + 1)
       case Bad(why) => Bad(why)
       case Good((numeric, rest)) => Paired(Symbolic(values, flags, numeric), rest))
    case Union(fields) => ReadUnion(env, t, fields, b, tag, depth)
    case Struct(fields) =>
      match ReadFields(env, t, fields, 0, map[], tag, b, depth)
      case Bad(why) => Bad(why)
      case Good((members, rest)) => Paired(Projected(t, members - Counts(fields)), rest)
  }

  function Paired(v: Coded<J.Json>, rest: Text): Coded<(J.Json, Text)> {
    if v.Good? then Good((v.value, rest)) else Bad(v.why)
  }

  function ReadItems(env: Env, t: Type, n: nat, b: Text, depth: nat): Coded<(seq<J.Json>, Text)>
    requires depth <= MAX_DEPTH + 1
    decreases MAX_DEPTH + 1 - depth, 6, n
  {
    if n == 0 then Good(([], b))
    else
      match Read(env, t, b, None, depth)
      case Bad(why) => Bad(why)
      case Good((item, rest)) =>
        match ReadItems(env, t, n - 1, rest, depth)
        case Bad(why) => Bad(why)
        case Good((items, last)) => Good(([item] + items, last))
  }

  function ReadUnion(env: Env, t: Type, fields: seq<Field>, b: Text, tag: Option<J.Json>,
                     depth: nat): Coded<(J.Json, Text)>
    requires depth <= MAX_DEPTH
    decreases MAX_DEPTH + 1 - depth, 3, 0
  {
    var size := FixedSize(env.catalog, t, 0);
    if size < 0 || Variable(env.catalog, t, 0) then Bad(Unsupported)
    else
      match MemberFor(fields, tag)
      case None => Bad(Unsupported)
      case Some(member) =>
        if |b| < size then Bad(InvalidReply)
        else
          match Read(env, member.type_, b[..size], None, depth + 1)
          case Bad(why) => Bad(why)
          case Good((item, _)) => Good((J.Obj(map[member.name := item]), b[size..]))
  }

  function ReadFields(env: Env, t: Type, fields: seq<Field>, i: nat, members: Members, tag: Option<J.Json>, b: Text,
                      depth: nat): Coded<(Members, Text)>
    requires i <= |fields| && depth <= MAX_DEPTH
    decreases MAX_DEPTH + 1 - depth, 3, |fields| - i
  {
    if i == |fields| then Good((members, b))
    else
      match ReadField(env, t, fields[i], members, tag, b, depth)
      case Bad(why) => Bad(why)
      case Good((item, rest)) => ReadFields(env, t, fields, i + 1, members[fields[i].name := item], tag, rest, depth)
  }

  function ReadField(env: Env, t: Type, f: Field, members: Members, tag: Option<J.Json>, b: Text,
                     depth: nat): Coded<(J.Json, Text)>
    requires depth <= MAX_DEPTH
    decreases MAX_DEPTH + 1 - depth, 2, 0
  {
    if FixedText(f) then
      (if f.length.value > PAYLOAD_BYTES then Bad(InvalidParams)
       else if |b| < f.length.value then Bad(InvalidReply)
       else Good((J.Str(UpToNul(b[..f.length.value])), b[f.length.value..])))
    else if IsArray(f) then
      var count := ArrayCount(f, members);
      if count.Bad? then Bad(count.why)
      else
        match ReadItems(env, f.type_, count.value, b, depth + 1)
        case Bad(why) => Bad(why)
        case Good((items, rest)) => Good((J.Arr(items), rest))
    else
      match Chosen(t, f, members, tag)
      case Bad(why) => Bad(why)
      case Good(chosen) => Read(env, f.type_, b, chosen, depth + 1)
  }

  // ---- The public operations ----

  function Encode(env: Env, t: Type, v: J.Json): Coded<Text> { Write(env, t, v, None, 0, 0) }

  function Decode(env: Env, t: Type, b: Text): Coded<J.Json> {
    match Read(env, t, b, None, 0)
    case Bad(why) => Bad(why)
    case Good((v, rest)) => if rest == [] then Good(v) else Bad(InvalidReply)
  }
}
