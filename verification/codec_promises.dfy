/** What Encode and Decode promise each other. */
module CodecPromises {
  import opened Text
  import opened Catalogs
  import opened Integers
  import opened Leaves
  import opened Codec
  import opened CodecSizes
  import opened Canonical
  import opened CodecRoundTrip
  import opened CodecNormal
  import J = JsonText

  /** Over a well-formed catalog: what Encode accepts, Decode gives back in canonical form,
      whatever the platform takes for an address. That form has the same encoding exactly
      if the value is settled; otherwise it has none. */
  lemma DecodeOfEncode(env: Env, t: Type, v: J.Json)
    requires Serves(env) && !Tagged(env.catalog, t) && Encode(env, t, v).Good?
    ensures Decode(env, t, Encode(env, t, v).value) == Good(Canon(env, t, v, 0))
    ensures Telling(env.host) ==>
              && (Encode(env, t, Canon(env, t, v, 0)) == Encode(env, t, v) <==> Settled(env, t, v, 0))
              && (Encode(env, t, Canon(env, t, v, 0)).Bad? <==> !Settled(env, t, v, 0))
  {
    hide Serves, Telling, TaggedWithin, Write, Read, Canon, Settled;
    RoundTrip(env, t, v, None, 0, 0, []);
    var b := Encode(env, t, v).value;
    assert b + [] == b;
  }

  /** Two values have the same encoding exactly when their canonical forms agree, and these
      are normal forms wherever they can be written. */
  lemma CanonIsNormal(env: Env, t: Type, v: J.Json, w: J.Json)
    requires Serves(env) && Telling(env.host) && !Tagged(env.catalog, t)
    requires Encode(env, t, v).Good? && Encode(env, t, w).Good?
    ensures Settled(env, t, v, 0) ==> Canon(env, t, Canon(env, t, v, 0), 0) == Canon(env, t, v, 0)
    ensures Encode(env, t, v) == Encode(env, t, w) <==> Canon(env, t, v, 0) == Canon(env, t, w, 0)
  {
    hide Serves, Telling, TaggedWithin, Write, Read, Canon, Settled;
    DecodeOfEncode(env, t, v);
    DecodeOfEncode(env, t, w);
    if Settled(env, t, v, 0) {
      DecodeOfEncode(env, t, Canon(env, t, v, 0));
    }
    if Canon(env, t, v, 0) == Canon(env, t, w, 0) {
      SameBytes(env, t, v, w, None, 0, 0);
    }
  }

  // ---- Reading never looks past what it takes ----

  lemma {:induction false} ReadMore(env: Env, t: Type, b: Text, more: Text, tag: Option<J.Json>, depth: nat)
    requires depth <= MAX_DEPTH + 1 && Read(env, t, b, tag, depth).Good?
    ensures var (v, rest) := Read(env, t, b, tag, depth).value;
            Read(env, t, b + more, tag, depth) == Good((v, rest + more))
    decreases MAX_DEPTH + 1 - depth, 5, 0
  {
    hide IsLeaf, ReadLeaf, ReadDefined;
    if IsLeaf(t) {
      ReadLeafMore(env.host, t, b, more);
    } else {
      ReadDefinedMore(env, t, env.catalog[t], b, more, tag, depth);
    }
  }

  lemma ReadLeafMore(h: Host, t: Type, b: Text, more: Text)
    requires IsLeaf(t) && ReadLeaf(h, t, b).Good?
    ensures ReadLeaf(h, t, b + more) == Good((ReadLeaf(h, t, b).value.0, ReadLeaf(h, t, b).value.1 + more))
  {
    hide IsLeaf, IsFixed, ReadFixed, ReadText, NativeSize;
    if t == Characters {
      ReadTextMore(b, more);
    } else {
      assert (b + more)[..NativeSize(t)] == b[..NativeSize(t)];
      assert (b + more)[NativeSize(t)..] == b[NativeSize(t)..] + more;
    }
  }

  lemma {:induction false} ReadDefinedMore(env: Env, t: Type, d: Definition, b: Text, more: Text, tag: Option<J.Json>,
                                           depth: nat)
    requires depth <= MAX_DEPTH && ReadDefined(env, t, d, b, tag, depth).Good?
    ensures var (v, rest) := ReadDefined(env, t, d, b, tag, depth).value;
            ReadDefined(env, t, d, b + more, tag, depth) == Good((v, rest + more))
    decreases MAX_DEPTH + 1 - depth, 4, 0
  {
    hide Read, ReadItems, ReadUnion, ReadFields, Symbolic, Projected, Counts;
    match d
    case Alias(base, None) => ReadMore(env, base, b, more, tag, depth + 1);
    case Alias(base, Some(n)) => ReadItemsMore(env, base, n, b, more, depth + 1);
    case Enumeration(base, _, _) => ReadMore(env, base, b, more, None, depth + 1);
    case Union(fields) => ReadUnionMore(env, t, fields, b, more, tag, depth);
    case Struct(fields) => ReadFieldsMore(env, t, fields, 0, map[], b, more, tag, depth);
  }

  lemma {:induction false} ReadItemsMore(env: Env, t: Type, n: nat, b: Text, more: Text, depth: nat)
    requires depth <= MAX_DEPTH + 1 && ReadItems(env, t, n, b, depth).Good?
    ensures var (items, rest) := ReadItems(env, t, n, b, depth).value;
            ReadItems(env, t, n, b + more, depth) == Good((items, rest + more))
    decreases MAX_DEPTH + 1 - depth, 6, n
  {
    hide Read;
    if n > 0 {
      ReadMore(env, t, b, more, None, depth);
      ReadItemsMore(env, t, n - 1, Read(env, t, b, None, depth).value.1, more, depth);
    }
  }

  lemma ReadUnionMore(env: Env, t: Type, fields: seq<Field>, b: Text, more: Text, tag: Option<J.Json>, depth: nat)
    requires depth <= MAX_DEPTH && ReadUnion(env, t, fields, b, tag, depth).Good?
    ensures var (v, rest) := ReadUnion(env, t, fields, b, tag, depth).value;
            ReadUnion(env, t, fields, b + more, tag, depth) == Good((v, rest + more))
  {
    hide Read, FixedSize, Variable, MemberFor;
    var size := FixedSize(env.catalog, t, 0);
    assert (b + more)[..size] == b[..size];
    assert (b + more)[size..] == b[size..] + more;
  }

  lemma {:induction false} ReadFieldsMore(env: Env, t: Type, fields: seq<Field>, i: nat, members: Members, b: Text,
                                          more: Text,
                                          tag: Option<J.Json>, depth: nat)
    requires i <= |fields| && depth <= MAX_DEPTH && ReadFields(env, t, fields, i, members, tag, b, depth).Good?
    ensures var (whole, rest) := ReadFields(env, t, fields, i, members, tag, b, depth).value;
            ReadFields(env, t, fields, i, members, tag, b + more, depth) == Good((whole, rest + more))
    decreases MAX_DEPTH + 1 - depth, 3, |fields| - i
  {
    hide ReadField;
    if i < |fields| {
      ReadFieldMore(env, t, fields[i], members, b, more, tag, depth);
      var (item, rest) := ReadField(env, t, fields[i], members, tag, b, depth).value;
      ReadFieldsMore(env, t, fields, i + 1, members[fields[i].name := item], rest, more, tag, depth);
    }
  }

  lemma {:induction false} ReadFieldMore(env: Env, t: Type, f: Field, members: Members, b: Text, more: Text,
                                         tag: Option<J.Json>, depth: nat)
    requires depth <= MAX_DEPTH && ReadField(env, t, f, members, tag, b, depth).Good?
    ensures var (item, rest) := ReadField(env, t, f, members, tag, b, depth).value;
            ReadField(env, t, f, members, tag, b + more, depth) == Good((item, rest + more))
    decreases MAX_DEPTH + 1 - depth, 2, 0
  {
    hide Read, ReadItems, ArrayCount, Chosen, UpToNul;
    if FixedText(f) {
      assert (b + more)[..f.length.value] == b[..f.length.value];
      assert (b + more)[f.length.value..] == b[f.length.value..] + more;
    } else if IsArray(f) {
      ReadItemsMore(env, f.type_, ArrayCount(f, members).value, b, more, depth + 1);
    } else {
      ReadMore(env, f.type_, b, more, Chosen(t, f, members, tag).value, depth + 1);
    }
  }

  /** Encodings are self-delimiting: with anything behind it an encoding is read alike and
      the rest is left over; so no longer and no shorter text than an encoding that starts
      with it, or that it starts with, is accepted. */
  lemma SelfDelimiting(env: Env, t: Type, v: J.Json, b: Text)
    requires Serves(env) && !Tagged(env.catalog, t) && Encode(env, t, v).Good?
    requires b != Encode(env, t, v).value && (b <= Encode(env, t, v).value || Encode(env, t, v).value <= b)
    ensures Decode(env, t, b).Bad?
  {
    hide Serves, TaggedWithin, Read, Canon;
    var whole := Encode(env, t, v).value;
    if whole <= b {
      var rest := b[|whole|..];
      assert b == whole + rest && rest != [];
      RoundTrip(env, t, v, None, 0, 0, rest);
    } else if Read(env, t, b, None, 0).Good? {
      var rest := whole[|b|..];
      assert whole == b + rest && rest != [] && whole + [] == whole;
      RoundTrip(env, t, v, None, 0, 0, []);
      ReadMore(env, t, b, rest, None, 0);
    }
  }

  /** The static size is the size of every encoding, and no encoding exceeds 1 MiB. */
  lemma EncodedSize(env: Env, t: Type, v: J.Json)
    requires Serves(env) && Encode(env, t, v).Good?
    ensures |Encode(env, t, v).value| <= PAYLOAD_BYTES
    ensures FixedSize(env.catalog, t, 0) >= 0 && !Variable(env.catalog, t, 0) ==>
              |Encode(env, t, v).value| == FixedSize(env.catalog, t, 0)
  {
    hide Write, FixedSize, Variable, GoodCatalog, Consistent;
    EncodeFits(env, t, v);
    if HasSize(env.catalog, t, 0) {
      GoodIsWellSized(env.catalog);
      SizeIsExact(env, t, v, None, 0, 0, 0);
    }
  }

  // ---- Where something is lost ----

  /** A text that can be encoded comes back as it was exactly when its length fits 32 bits. */
  lemma TextsComeBack(env: Env, v: J.Json)
    requires Serves(env) && v.Str? && Encode(env, Characters, v).Good?
    ensures Decode(env, Characters, Encode(env, Characters, v).value) == Good(v) <==> |v.s| < LENGTHS
  {
    hide Serves, TaggedWithin, Encode, Decode, IsLeaf;
    TextIsLeaf(env.catalog);
    DecodeOfEncode(env, Characters, v);
    assert Canon(env, Characters, v, 0) == J.Str(Kept(v.s)) by { CanonOfText(env, v); }
    if |v.s| >= LENGTHS {
      assert |Kept(v.s)| < LENGTHS;
    } else {
      assert Kept(v.s) == v.s;
    }
  }

  lemma TextIsLeaf(c: Catalog)
    ensures IsLeaf(Characters) && !Tagged(c, Characters)
  {
  }

  lemma CanonOfText(env: Env, v: J.Json)
    requires v.Str?
    ensures Canon(env, Characters, v, 0) == J.Str(Kept(v.s))
  {
    assert IsLeaf(Characters);
  }

  /** A text of exactly 4 GiB can be encoded, and is lost. */
  lemma LongTextIsLost(env: Env)
    requires Serves(env)
    ensures var v := J.Str(seq(LENGTHS, _ => 65));
            Encode(env, Characters, v) == Good([0, 0, 0, 0]) && Decode(env, Characters, [0, 0, 0, 0]) == Good(J.Str([]))
  {
    hide Serves, ReadLeaf;
    var v := J.Str(seq(LENGTHS, _ => 65));
    assert Kept(v.s) == [];
    assert Little(0, 3) == [0, 0, 0] && Little(0, 4) == [0, 0, 0, 0] by { FourZeros(); }
    assert [0, 0, 0, 0] + [] == [0, 0, 0, 0];
    assert WriteText(v) == Good([0, 0, 0, 0]) && |[0, 0, 0, 0]| == 4;
    assert WriteLeaf(env.host, Characters, v, 0) == Fit([0, 0, 0, 0], 0) == Good([0, 0, 0, 0]);
    OfLeaf(env, Characters, v, [0, 0, 0, 0], None, 0, 0);
    TextIsLeaf(env.catalog);
    DecodeOfEncode(env, Characters, v);
    CanonOfText(env, v);
  }

  lemma FourZeros()
    ensures Little(0, 3) == [0, 0, 0] && Little(0, 4) == [0, 0, 0, 0]
  {
    assert Little(0, 0) == [] && Little(0, 1) == [0] && Little(0, 2) == [0, 0];
  }

  /** A type that stands for a union is never read without a discriminator. */
  lemma {:induction false} UnionNeedsTag(env: Env, t: Type, b: Text, depth: nat)
    requires depth <= MAX_DEPTH + 1 && TaggedWithin(env.catalog, t, MAX_DEPTH + 1 - depth)
    requires !IsNextHop(env.catalog, t, MAX_DEPTH + 1 - depth)
    ensures Read(env, t, b, None, depth).Bad?
    decreases MAX_DEPTH + 1 - depth
  {
    hide IsLeaf, FixedSize, Variable;
    if depth <= MAX_DEPTH && t in env.catalog {
      assert Read(env, t, b, None, depth) == ReadDefined(env, t, env.catalog[t], b, None, depth);
      if env.catalog[t].Alias? {
        UnionNeedsTag(env, env.catalog[t].base, b, depth + 1);
      } else {
        assert ReadUnion(env, t, env.catalog[t].fields, b, None, depth).Bad?;
      }
    }
  }

  /** Of what can be encoded, exactly the values of untagged types come back. */
  lemma ComesBackExactly(env: Env, t: Type, v: J.Json)
    requires Serves(env) && !IsNextHop(env.catalog, t, MAX_DEPTH + 1) && Encode(env, t, v).Good?
    ensures Decode(env, t, Encode(env, t, v).value) == Good(Canon(env, t, v, 0)) <==> !Tagged(env.catalog, t)
  {
    hide Serves, TaggedWithin, Write, Read, Canon;
    if Tagged(env.catalog, t) {
      UnionNeedsTag(env, t, Encode(env, t, v).value, 0);
    } else {
      DecodeOfEncode(env, t, v);
    }
  }
}
