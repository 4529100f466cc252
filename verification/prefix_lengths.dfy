/** Prefixes of IPv4 addresses: the length is judged by a colon anywhere in front of the
    slash, but the address is read up to the first NUL. */
module PrefixLengths {
  import opened Text
  import opened Catalogs
  import opened Integers
  import opened Leaves
  import opened Codec
  import opened CodecSizes
  import opened Canonical
  import opened RoundTrips
  import opened CodecRoundTrip
  import opened CodecPromises
  import J = JsonText

  /** A prefix type over IPv4 addresses. */
  predicate OverIp4(c: Catalog, t: Type) {
    IsPrefix(t) && t in c && c[t].Struct? && |c[t].fields| == 2 && c[t].fields[0].type_ == Ip4
  }

  /** The length behind the last slash. */
  function LengthOf(t: Type, v: J.Json): int {
    match Lifted(t, v)
    case Good(Obj(m)) => if LEN in m && m[LEN].Num? then m[LEN].n else 0
    case _ => 0
  }

  lemma StructIsUntagged(c: Catalog, t: Type)
    requires IsPrefix(t) && t in c && c[t].Struct?
    ensures !IsLeaf(t) && !Tagged(c, t) && t != Address
  {
  }

  /** What the parts of a prefix text are, once it has been written. */
  lemma PrefixParts(env: Env, t: Type, v: J.Json)
    requires Serves(env) && Telling(env.host) && OverIp4(env.catalog, t) && Encode(env, t, v).Good?
    ensures v.Str? && (Settled(env, t, v, 0) <==> LengthOf(t, v) <= 32)
    ensures J.COLON !in v.s ==> LengthOf(t, v) <= 32
  {
    hide Ascii, Write, WriteFields, GoodFields, Prepared, Serves, Telling, Counts, Start, UpToNul, Parsed, Tagged;
    StructIsUntagged(env.catalog, t);
    FieldsAreGood(env, t);
    var fields := env.catalog[t].fields;
    OfStruct(env, t, v, None, 0, 0);
    LiftedPrefixParts(t, v);
    var start := Lifted(t, v).value.m;
    PreparedPlain(fields, start);
    SettledStruct(env, t, v, 0);
    PlainSettled(env, fields, start);
    Ip4Part(env, t, start);
    IpIsPart(t, v);
  }

  /** Neither an address nor a length holds another prefix. */
  lemma PlainSettled(env: Env, fields: seq<Field>, start: Members)
    requires |fields| == 2 && fields[0].type_ == Ip4 && fields[1].type_ == U8
    requires fields[0].length.None? && fields[1].length.None?
    ensures SettledFields(env, fields, 0, start, 0)
  {
    hide Settled, ItemOf;
    forall v ensures Settled(env, Ip4, v, 1) && Settled(env, U8, v, 1) {
      LeafIsSettled(env, Ip4, v, 1);
      LeafIsSettled(env, U8, v, 1);
    }
    assert SettledFields(env, fields, 2, start, 0);
    assert SettledFields(env, fields, 1, start, 0);
  }

  /** The platform sees no colon in the address. */
  lemma Ip4Part(env: Env, t: Type, start: Members)
    requires Serves(env) && Telling(env.host) && OverIp4(env.catalog, t) && start.Keys == {ADDRESS, LEN}
    requires WriteFields(env, t, env.catalog[t].fields, 0, start, None, 0, 0).Good?
    ensures start[ADDRESS].Str? && J.COLON !in UpToNul(start[ADDRESS].s)
  {
    hide Ascii, Canon, Write, WriteField, WriteFields, GoodFields, Serves, Filled, Chosen, Distinct, Telling, UpToNul;
    AddressNames();
    FieldsAreGood(env, t);
    var fields := env.catalog[t].fields;
    GoodIsDistinct(env.catalog, t, fields);
    FilledStart(env.catalog, fields, start);
    var at, before := FieldWritten(env, t, fields, 0, start, start, None, 0, 0, 0);
    OfPlainField(env, t, fields[0], at, start[ADDRESS], None, 0, before);
    IpRead(env, Ip4, start[ADDRESS], Chosen(t, fields[0], at, None).value, 1, before);
  }

  lemma IpIsPart(t: Type, v: J.Json)
    requires IsPrefix(t) && Lifted(t, v).Good?
    ensures var m := Lifted(t, v).value.m; v.Str? && m[ADDRESS].Str? && (J.COLON in m[ADDRESS].s ==> J.COLON in v.s)
  {
    hide Ascii, LastSlash;
    LiftedPrefixParts(t, v);
    LastSlashBound(v.s);
  }

  /** What is encoded comes back; it has its encoding again exactly if the length is at most
      32 or the text holds no colon, and otherwise it has none. */
  lemma PrefixComesBackExactly(env: Env, t: Type, v: J.Json)
    requires Serves(env) && Telling(env.host) && OverIp4(env.catalog, t) && Encode(env, t, v).Good?
    ensures v.Str? && Decode(env, t, Encode(env, t, v).value) == Good(Canon(env, t, v, 0))
    ensures var again := Encode(env, t, Canon(env, t, v, 0));
            && (again == Encode(env, t, v) <==> LengthOf(t, v) <= 32 || J.COLON !in v.s)
            && (again.Bad? <==> LengthOf(t, v) > 32 && J.COLON in v.s)
  {
    hide Serves, Telling, Write, Read, Canon, Settled, Lifted, Tagged;
    StructIsUntagged(env.catalog, t);
    PrefixParts(env, t, v);
    DecodeOfEncode(env, t, v);
  }

  // ---- The family of texts that fail ----

  /** An IPv4 address, a NUL, a colon and a length. */
  function Deceptive(ip: Text, n: nat): J.Json { J.Str(ip + [0, J.COLON] + [SLASH] + Decimal(n)) }

  lemma DeceptiveLifted(t: Type, ip: Text, n: nat)
    requires IsPrefix(t) && n <= 128
    ensures Lifted(t, Deceptive(ip, n)) == Good(J.Obj(map[ADDRESS := J.Str(ip + [0, J.COLON]), LEN := J.Num(n)]))
  {
    hide Ascii, Decimal, Projected, Lifted;
    PrefixSpelled(t, ip + [0, J.COLON], n);
  }

  lemma AddressWritten(env: Env, ip: Text, tag: Option<J.Json>)
    requires Consistent(env.host) && 0 !in ip && env.host.ip4(ip).Some?
    ensures Write(env, Ip4, J.Str(ip + [0, J.COLON]), tag, 1, 0) == Good(env.host.ip4(ip).value)
    ensures |env.host.ip4(ip).value| == 4
  {
    hide UpToNul;
    UpToNulOfWhole(ip, [J.COLON]);
    assert ip + [0, J.COLON] == ip + [0] + [J.COLON];
  }

  lemma LengthWritten(env: Env, n: nat, tag: Option<J.Json>)
    requires n <= 128
    ensures Write(env, U8, J.Num(n), tag, 1, 4) == Good([n as byte])
  {
    assert Pow256(1) == 256;
    assert Little(n, 1) == [n as byte];
  }

  lemma TwoPrepared(t: Type, fields: seq<Field>, start: Members)
    requires IsPrefix(t) && GoodText(t, fields) && start.Keys == {ADDRESS, LEN}
    ensures Prepared(fields, start) == Good(start)
  {
    hide Ascii;
    AddressNames();
    assert fields[0].name == ADDRESS && fields[1].name == LEN;
    assert Counted(fields, 1, start) == Good(start);
  }

  lemma PrefixNames(t: Type, fields: seq<Field>)
    requires IsPrefix(t) && GoodText(t, fields)
    ensures |fields| == 2 && fields[0].name == ADDRESS && fields[1].name == LEN
  {
    hide Ascii;
  }

  lemma ItemThere(c: Catalog, f: Field, start: Members)
    requires f.name in start
    ensures ItemOf(c, f, start) == Good(start[f.name]) && start[f.name := start[f.name]] == start
  {
  }

  lemma OneWritten(env: Env, t: Type, fields: seq<Field>, i: nat, start: Members, b: Text, more: Text, used: nat)
    requires i < |fields| && fields[i].name in start
    requires WriteField(env, t, fields[i], start, start[fields[i].name], None, 0, used) == Good(b)
    requires WriteFields(env, t, fields, i + 1, start, None, 0, used + |b|) == Good(more)
    ensures WriteFields(env, t, fields, i, start, None, 0, used) == Good(b + more)
  {
    hide WriteField, WriteFields, ItemOf;
    ItemThere(env.catalog, fields[i], start);
    WriteMoreFields(env, t, fields, i, start, start[fields[i].name], None, 0, used);
  }

  lemma TwoWritten(env: Env, t: Type, fields: seq<Field>, start: Members, first: Text, second: Text)
    requires IsPrefix(t) && GoodText(t, fields) && start.Keys == {ADDRESS, LEN}
    requires WriteField(env, t, fields[0], start, start[ADDRESS], None, 0, 0) == Good(first)
    requires WriteField(env, t, fields[1], start, start[LEN], None, 0, |first|) == Good(second)
    ensures WriteFields(env, t, fields, 0, start, None, 0, 0) == Good(first + second)
  {
    hide Ascii, WriteField, WriteFields, ItemOf, GoodText, IsPrefix;
    PrefixNames(t, fields);
    NoMoreFields(env, t, fields, start, None, [], 0, |first| + |second|);
    OneWritten(env, t, fields, 1, start, second, [], |first|);
    assert second + [] == second;
    OneWritten(env, t, fields, 0, start, first, second, 0);
  }

  lemma DeceptiveFields(env: Env, t: Type, ip: Text, n: nat)
    requires Consistent(env.host) && OverIp4(env.catalog, t) && GoodText(t, env.catalog[t].fields)
    requires 0 !in ip && env.host.ip4(ip).Some? && n <= 128
    ensures var start: Members := map[ADDRESS := J.Str(ip + [0, J.COLON]), LEN := J.Num(n)];
            && Prepared(env.catalog[t].fields, start) == Good(start)
            && WriteFields(env, t, env.catalog[t].fields, 0, start, None, 0, 0)
               == Good(env.host.ip4(ip).value + [n as byte])
  {
    hide Ascii, Write, WriteField, WriteFields, Prepared, Consistent, Chosen, UpToNul;
    AddressNames();
    var fields := env.catalog[t].fields;
    var address, length := J.Str(ip + [0, J.COLON]), J.Num(n);
    var start: Members := map[ADDRESS := address, LEN := length];
    TwoPrepared(t, fields, start);
    PlainField(env, t, fields[0], start, address, 0);
    AddressWritten(env, ip, Chosen(t, fields[0], start, None).value);
    PlainField(env, t, fields[1], start, length, 4);
    LengthWritten(env, n, Chosen(t, fields[1], start, None).value);
    TwoWritten(env, t, fields, start, env.host.ip4(ip).value, [n as byte]);
  }

  lemma PlainField(env: Env, t: Type, f: Field, members: Members, item: J.Json, used: nat)
    requires f.length.None? && IsPrefix(t)
    ensures Chosen(t, f, members, None).Good?
    ensures WriteField(env, t, f, members, item, None, 0, used)
         == Write(env, f.type_, item, Chosen(t, f, members, None).value, 1, used)
  {
    hide Write;
  }

  /** Whatever the IPv4 address and the length above 32: such a text is encoded, decoded
      as address and length, and what is decoded is refused. */
  lemma DeceptiveIsLost(env: Env, t: Type, ip: Text, n: nat)
    requires Serves(env) && Telling(env.host) && OverIp4(env.catalog, t)
    requires 0 !in ip && env.host.ip4(ip).Some? && 32 < n <= 128
    ensures var b := env.host.ip4(ip).value + [n as byte];
            && Encode(env, t, Deceptive(ip, n)) == Good(b)
            && env.host.ip4Text(env.host.ip4(ip).value).Some?
            && var left := J.Str(env.host.ip4Text(env.host.ip4(ip).value).value + [SLASH] + Decimal(n));
            && Decode(env, t, b) == Good(left) && Encode(env, t, left).Bad?
  {
    hide Ascii, Write, WriteFields, GoodFields, Prepared, Serves, Telling, Lifted, Canon, Read, Tagged, Decimal,
         Consistent;
    var v := Deceptive(ip, n);
    StructIsUntagged(env.catalog, t);
    FieldsAreGood(env, t);
    ServesConsistently(env);
    DeceptiveLifted(t, ip, n);
    DeceptiveFields(env, t, ip, n);
    OfStruct(env, t, v, None, 0, 0);
    AddressNames();
    assert LengthOf(t, v) == n;
    assert v.s[|ip| + 1] == J.COLON;
    PrefixComesBackExactly(env, t, v);
    DeceptiveCanon(env, t, ip, n);
  }

  /** A prefix in canonical form. */
  lemma PrefixCanon(env: Env, t: Type, v: J.Json, start: Members)
    requires Serves(env) && OverIp4(env.catalog, t) && Encode(env, t, v).Good?
    requires Lifted(t, v) == Good(J.Obj(start)) && start.Keys == {ADDRESS, LEN} && start[LEN].Num? && start[LEN].n >= 0
    ensures var ip := Canon(env, Ip4, start[ADDRESS], 1);
            ip.Str? && Canon(env, t, v, 0) == J.Str(ip.s + [SLASH] + Decimal(start[LEN].n))
  {
    hide Ascii, Whole, Canon, Write, WriteFields, GoodFields, Prepared, Serves, Lifted, Projected, Counts, Start,
         Decimal, Tagged, Telling, UpToNul, IsLeaf;
    StructIsUntagged(env.catalog, t);
    FieldsAreGood(env, t);
    var fields := env.catalog[t].fields;
    OfStruct(env, t, v, None, 0, 0);
    PreparedPlain(fields, start);
    PrefixFields(env, t, start, None, 0, 0);
    CanonOfStruct(env, t, v, 0);
    PrefixSpelled(t, Canon(env, Ip4, start[ADDRESS], 1).s, start[LEN].n);
  }

  /** What is left of such a text. */
  lemma DeceptiveCanon(env: Env, t: Type, ip: Text, n: nat)
    requires Serves(env) && OverIp4(env.catalog, t) && 0 !in ip && env.host.ip4(ip).Some?
    requires Encode(env, t, Deceptive(ip, n)).Good? && n <= 128
    ensures env.host.ip4Text(env.host.ip4(ip).value).Some?
    ensures Canon(env, t, Deceptive(ip, n), 0)
         == J.Str(env.host.ip4Text(env.host.ip4(ip).value).value + [SLASH] + Decimal(n))
  {
    hide Ascii, Canon, Write, Serves, Lifted, Decimal, Consistent;
    AddressNames();
    ServesConsistently(env);
    DeceptiveLifted(t, ip, n);
    AddressCanon(env, ip);
    PrefixCanon(env, t, Deceptive(ip, n), map[ADDRESS := J.Str(ip + [0, J.COLON]), LEN := J.Num(n)]);
  }

  lemma AddressCanon(env: Env, ip: Text)
    requires Consistent(env.host) && 0 !in ip && env.host.ip4(ip).Some?
    ensures env.host.ip4Text(env.host.ip4(ip).value).Some?
    ensures Canon(env, Ip4, J.Str(ip + [0, J.COLON]), 1) == J.Str(env.host.ip4Text(env.host.ip4(ip).value).value)
  {
    hide UpToNul;
    UpToNulOfWhole(ip, [J.COLON]);
    assert ip + [0, J.COLON] == ip + [0] + [J.COLON];
  }

  lemma ServesConsistently(env: Env)
    requires Serves(env)
    ensures Consistent(env.host)
  {
    hide Consistent, GoodCatalog;
  }

  // ---- A platform and a catalog where it happens ----

  const HOME := Ascii("1.2.3.4")

  /** Knows one address; otherwise it has nothing to say. */
  const SMALL: Host :=
    Host((name: Text) => None, (index: nat) => None,
         (t: Text) => if t == HOME then Some([1, 2, 3, 4]) else None,
         (b: Text) => if b == [1, 2, 3, 4] then Some(HOME) else None,
         (t: Text) => None, (b: Text) => None,
         (v: J.Json) => None, (b: Text) => None, (v: J.Json) => None, (b: Text) => None)

  const PREFIXES: Catalog :=
    map[Ip4Prefix := Struct([Field(ADDRESS, Ip4, None, None, None, None, None),
                             Field(LEN, U8, None, None, None, None, None)])]

  lemma SmallIsFaithful()
    ensures Consistent(SMALL) && Telling(SMALL)
    ensures SMALL.ip4(HOME) == Some([1, 2, 3, 4]) && 0 !in HOME
  {
  }

  lemma PrefixesAreGood()
    ensures GoodCatalog(PREFIXES) && OverIp4(PREFIXES, Ip4Prefix)
  {
    hide Ascii;
    AddressNames();
  }

  /** "1.2.3.4", a NUL and ":/64" are sent as 1 2 3 4 64, come back as "1.2.3.4/64", and
      that is refused. */
  lemma LostPrefix()
    ensures var env, v := Env(PREFIXES, SMALL), Deceptive(HOME, 64);
            && Serves(env) && Telling(SMALL) && Encode(env, Ip4Prefix, v) == Good([1, 2, 3, 4, 64])
            && Decode(env, Ip4Prefix, [1, 2, 3, 4, 64]) == Good(J.Str(Ascii("1.2.3.4/64")))
            && Encode(env, Ip4Prefix, J.Str(Ascii("1.2.3.4/64"))).Bad?
  {
    hide Ascii, Canon, Write, Read, GoodCatalog, Consistent, Telling, OverIp4, Decimal;
    var env, v := Env(PREFIXES, SMALL), Deceptive(HOME, 64);
    SmallIsFaithful();
    PrefixesAreGood();
    DeceptiveIsLost(env, Ip4Prefix, HOME, 64);
    assert [1, 2, 3, 4] + [64] == [1, 2, 3, 4, 64];
    assert HOME + [SLASH] + Decimal(64) == Ascii("1.2.3.4/64") by { SixtyFour(); }
  }

  lemma SixtyFour()
    ensures HOME + [SLASH] + Decimal(64) == Ascii("1.2.3.4/64")
  {
    assert Digits(6) == [54];
    assert Decimal(64) == Digits(64) == Digits(6) + [52];
  }
}
