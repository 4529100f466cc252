/** The conversion as it runs: one side appends to a buffer, the other consumes one. */
module Converting {
  import opened Text
  import opened Catalogs
  import opened Integers
  import opened Leaves
  import opened Codec
  import J = JsonText

  /** What is still to be written joins what has been. */
  function Onto(done: Text, more: Coded<Text>): Coded<Text> {
    match more case Good(b) => Good(done + b) case Bad(why) => Bad(why)
  }

  function Statused(c: Coded<Text>): Option<Refusal> { match c case Good(_) => None case Bad(why) => Some(why) }

  lemma OntoNothing(more: Coded<Text>)
    ensures Onto([], more) == more
  {
    if more.Good? {
      assert [] + more.value == more.value;
    }
  }

  lemma OntoTwice(a: Text, b: Text, more: Coded<Text>)
    ensures Onto(a, Onto(b, more)) == Onto(a + b, more)
  {
    match more
    case Good(c) => assert a + (b + c) == a + b + c;
    case Bad(_) =>
  }

  class Encoder {
    const env: Env
    var encoded: Text

    constructor (env: Env)
      ensures this.env == env && encoded == []
    {
      this.env := env;
      encoded := [];
    }

    /** The buffer holds what it held and then what the conversion gives. */
    ghost predicate Wrote(before: Text, b: Coded<Text>, status: Option<Refusal>)
      reads this
    {
      status == Statused(b) && (b.Good? ==> encoded == before + b.value)
    }

    method Bytes(b: Text) returns (status: Option<Refusal>)
      modifies this
      ensures Wrote(old(encoded), Fit(b, |old(encoded)|), status)
    {
      if |b| > PAYLOAD_BYTES || |encoded| > PAYLOAD_BYTES - |b| {
        return Some(TooLarge);
      }
      encoded := encoded + b;
      return None;
    }

    /** A text: its length in four bytes, then the bytes it keeps. */
    method ConvertText(v: J.Json) returns (status: Option<Refusal>)
      modifies this
      ensures Wrote(old(encoded), WriteLeaf(env.host, Characters, v, |old(encoded)|), status)
    {
      if !v.Str? {
        return Some(InvalidParams);
      }
      var kept := Kept(v.s);
      status := Bytes(Little(|kept|, 4));
      if status.Some? {
        return;
      }
      if |kept| > PAYLOAD_BYTES {
        return Some(TooLarge);
      }
      status := Bytes(kept);
      assert old(encoded) + Little(|kept|, 4) + kept == old(encoded) + (Little(|kept|, 4) + kept);
    }

    method ConvertLeaf(t: Type, v: J.Json) returns (status: Option<Refusal>)
      requires IsLeaf(t)
      modifies this
      ensures Wrote(old(encoded), WriteLeaf(env.host, t, v, |old(encoded)|), status)
    {
      hide WriteFixed, WriteText;
      if t == Characters {
        status := ConvertText(v);
      } else {
        var b := WriteFixed(env.host, t, v);
        if b.Bad? {
          return Some(b.why);
        }
        status := Bytes(b.value);
      }
    }

    method Convert(t: Type, v: J.Json, tag: Option<J.Json>, depth: nat) returns (status: Option<Refusal>)
      requires depth <= MAX_DEPTH + 1
      modifies this
      ensures Wrote(old(encoded), Write(env, t, v, tag, depth, |old(encoded)|), status)
      decreases MAX_DEPTH + 1 - depth, 5, 0
    {
      hide WriteLeaf, WriteDefined, IsLeaf, Wrote;
      if depth > MAX_DEPTH {
        AlreadyBad(InvalidParams);
        return Some(InvalidParams);
      }
      if IsLeaf(t) {
        status := ConvertLeaf(t, v);
      } else if t !in env.catalog {
        AlreadyBad(Unsupported);
        return Some(Unsupported);
      } else {
        status := ConvertDefined(t, env.catalog[t], v, tag, depth);
      }
    }

    lemma AlreadyBad(why: Refusal)
      ensures Wrote(encoded, Bad(why), Some(why))
    {
    }

    method ConvertDefined(t: Type, d: Definition, v: J.Json, tag: Option<J.Json>,
                          depth: nat) returns (status: Option<Refusal>)
      requires depth <= MAX_DEPTH
      modifies this
      ensures Wrote(old(encoded), WriteDefined(env, t, d, v, tag, depth, |old(encoded)|), status)
      decreases MAX_DEPTH + 1 - depth, 4, 0
    {
      hide Write, WriteItems, WriteUnion, WriteFields, Numeric, Lifted, Prepared;
      match d {
        case Alias(base, None) =>
          status := Convert(base, v, tag, depth + 1);
        case Alias(base, Some(n)) =>
          if !v.Arr? || |v.items| != n {
            return Some(InvalidParams);
          }
          status := ConvertItems(base, v.items, depth + 1);
        case Enumeration(base, values, flags) =>
          var numeric := Numeric(base, values, flags, v);
          if numeric.Bad? {
            return Some(numeric.why);
          }
          status := Convert(base, numeric.value, None, depth + 1);
        case Union(fields) =>
          var lifted := Lifted(t, v);
          if lifted.Bad? {
            return Some(lifted.why);
          }
          status := ConvertUnion(t, fields, lifted.value, tag, depth);
        case Struct(fields) =>
          var lifted := Lifted(t, v);
          if lifted.Bad? {
            return Some(lifted.why);
          }
          if !lifted.value.Obj? {
            return Some(InvalidParams);
          }
          var members := Prepared(fields, lifted.value.m);
          if members.Bad? {
            return Some(members.why);
          }
          status := ConvertFields(t, fields, members.value, tag, depth);
      }
    }

    method ConvertItems(t: Type, items: seq<J.Json>, depth: nat) returns (status: Option<Refusal>)
      requires depth <= MAX_DEPTH + 1
      modifies this
      ensures Wrote(old(encoded), WriteItems(env, t, items, depth, |old(encoded)|), status)
      decreases MAX_DEPTH + 1 - depth, 6, 0
    {
      hide Write;
      ghost var before := encoded;
      var i := 0;
      assert items[0..] == items && encoded[|before|..] == [];
      OntoNothing(WriteItems(env, t, items, depth, |encoded|));
      while i < |items|
        invariant i <= |items| && before <= encoded
        invariant WriteItems(env, t, items, depth, |before|)
               == Onto(encoded[|before|..], WriteItems(env, t, items[i..], depth, |encoded|))
      {
        assert items[i..][0] == items[i] && items[i..][1..] == items[i + 1..];
        ghost var done := encoded[|before|..];
        ghost var b := Write(env, t, items[i], None, depth, |encoded|);
        status := Convert(t, items[i], None, depth);
        if status.Some? {
          return;
        }
        OntoTwice(done, b.value, WriteItems(env, t, items[i + 1..], depth, |encoded|));
        assert encoded[|before|..] == done + b.value;
        i := i + 1;
      }
      assert items[i..] == [];
      return None;
    }

    method ConvertUnion(t: Type, fields: seq<Field>, v: J.Json, tag: Option<J.Json>,
                        depth: nat) returns (status: Option<Refusal>)
      requires depth <= MAX_DEPTH
      modifies this
      ensures Wrote(old(encoded), WriteUnion(env, t, fields, v, tag, depth, |old(encoded)|), status)
      decreases MAX_DEPTH + 1 - depth, 3, 0
    {
      hide Write, FixedSize, Variable, MemberNamed, Resized;
      var size := FixedSize(env.catalog, t, 0);
      if size < 0 || Variable(env.catalog, t, 0) {
        return Some(Unsupported);
      }
      if !v.Obj? || |v.m| != 1 {
        return Some(InvalidParams);
      }
      var name := Sorted(v.m.Keys)[0];
      var member := MemberNamed(fields, name);
      if member.None? || (tag.Some? && member.value.case_.Some? && member.value.case_ != tag) {
        return Some(InvalidParams);
      }
      var inner := new Encoder(env);
      status := inner.Convert(member.value.type_, v.m[name], None, depth + 1);
      if status.Some? {
        return;
      }
      ghost var b := Write(env, member.value.type_, v.m[name], None, depth + 1, 0).value;
      assert inner.encoded == [] + b == b;
      assert encoded == old(encoded);
      assert WriteUnion(env, t, fields, v, tag, depth, |encoded|) == Fit(Resized(b, size), |encoded|);
      status := Bytes(Resized(inner.encoded, size));
    }

    method ConvertFields(t: Type, fields: seq<Field>, start: Members, tag: Option<J.Json>,
                         depth: nat) returns (status: Option<Refusal>)
      requires depth <= MAX_DEPTH
      modifies this
      ensures Wrote(old(encoded), WriteFields(env, t, fields, 0, start, tag, depth, |old(encoded)|), status)
      decreases MAX_DEPTH + 1 - depth, 3, 0
    {
      hide WriteField, ItemOf;
      ghost var before := encoded;
      var i, members := 0, start;
      assert encoded[|before|..] == [];
      OntoNothing(WriteFields(env, t, fields, 0, start, tag, depth, |encoded|));
      while i < |fields|
        invariant i <= |fields| && before <= encoded
        invariant WriteFields(env, t, fields, 0, start, tag, depth, |before|)
               == Onto(encoded[|before|..], WriteFields(env, t, fields, i, members, tag, depth, |encoded|))
      {
        var item := ItemOf(env.catalog, fields[i], members);
        if item.Bad? {
          return Some(item.why);
        }
        members := members[fields[i].name := item.value];
        ghost var done := encoded[|before|..];
        ghost var b := WriteField(env, t, fields[i], members, item.value, tag, depth, |encoded|);
        status := ConvertField(t, fields[i], members, item.value, tag, depth);
        if status.Some? {
          return;
        }
        OntoTwice(done, b.value, WriteFields(env, t, fields, i + 1, members, tag, depth, |encoded|));
        assert encoded[|before|..] == done + b.value;
        i := i + 1;
      }
      return None;
    }

    method ConvertField(t: Type, f: Field, members: Members, item: J.Json, tag: Option<J.Json>,
                        depth: nat) returns (status: Option<Refusal>)
      requires depth <= MAX_DEPTH
      modifies this
      ensures Wrote(old(encoded), WriteField(env, t, f, members, item, tag, depth, |old(encoded)|), status)
      decreases MAX_DEPTH + 1 - depth, 2, 0
    {
      hide Write, WriteItems, ArrayCount, Chosen;
      if FixedText(f) {
        if f.length.value > PAYLOAD_BYTES || !item.Str? || |item.s| >= f.length.value || 0 in item.s {
          return Some(InvalidParams);
        }
        status := Bytes(Padded(item.s, f.length.value));
      } else if IsArray(f) {
        var count := ArrayCount(f, members);
        if count.Bad? {
          return Some(count.why);
        }
        if !item.Arr? || |item.items| != count.value {
          return Some(InvalidParams);
        }
        status := ConvertItems(f.type_, item.items, depth + 1);
      } else {
        var chosen := Chosen(t, f, members, tag);
        if chosen.Bad? {
          return Some(chosen.why);
        }
        status := Convert(f.type_, item, chosen.value, depth + 1);
      }
    }
  }

  /** What was read so far comes before what is still read. */
  function Behind(done: seq<J.Json>, more: Coded<(seq<J.Json>, Text)>): Coded<(seq<J.Json>, Text)> {
    match more case Good((items, rest)) => Good((done + items, rest)) case Bad(why) => Bad(why)
  }

  class Decoder {
    const env: Env
    var decoded: Text

    constructor (env: Env, b: Text)
      ensures this.env == env && decoded == b
    {
      this.env := env;
      decoded := b;
    }

    /** The value and what is left of the input are those of the conversion. */
    ghost predicate Took<T>(r: Coded<(T, Text)>, v: Coded<T>)
      reads this
    {
      match v case Bad(why) => r == Bad(why) case Good(item) => r == Good((item, decoded))
    }

    method Bytes(count: nat) returns (b: Coded<Text>)
      modifies this
      ensures if |old(decoded)| < count then b == Bad(InvalidReply) && decoded == old(decoded)
              else b == Good(old(decoded)[..count]) && decoded == old(decoded)[count..]
    {
      if |decoded| < count {
        return Bad(InvalidReply);
      }
      b := Good(decoded[..count]);
      decoded := decoded[count..];
    }

    method ConvertText() returns (v: Coded<J.Json>)
      modifies this
      ensures Took(ReadText(old(decoded)), v)
    {
      ghost var all := decoded;
      var header := Bytes(4);
      if header.Bad? {
        return Bad(header.why);
      }
      var size := FromLittle(header.value);
      if size > PAYLOAD_BYTES {
        return Bad(TooLarge);
      }
      var text := Bytes(size);
      if text.Bad? {
        return Bad(text.why);
      }
      assert all[4..][..size] == all[4..4 + size] && all[4..][size..] == all[4 + size..];
      return Good(J.Str(text.value));
    }

    method ConvertLeaf(t: Type) returns (v: Coded<J.Json>)
      requires IsLeaf(t)
      modifies this
      ensures Took(ReadLeaf(env.host, t, old(decoded)), v)
    {
      hide ReadFixed, ReadText, NativeSize;
      if t == Characters {
        v := ConvertText();
      } else {
        var b := Bytes(NativeSize(t));
        if b.Bad? {
          return Bad(b.why);
        }
        v := ReadFixed(env.host, t, b.value);
      }
    }

    method Convert(t: Type, tag: Option<J.Json>, depth: nat) returns (v: Coded<J.Json>)
      requires depth <= MAX_DEPTH + 1
      modifies this
      ensures Took(Read(env, t, old(decoded), tag, depth), v)
      decreases MAX_DEPTH + 1 - depth, 5, 0
    {
      hide ReadLeaf, ReadDefined, IsLeaf;
      if depth > MAX_DEPTH {
        return Bad(InvalidParams);
      }
      if IsLeaf(t) {
        v := ConvertLeaf(t);
      } else if t !in env.catalog {
        return Bad(Unsupported);
      } else {
        v := ConvertDefined(t, env.catalog[t], tag, depth);
      }
    }

    method ConvertDefined(t: Type, d: Definition, tag: Option<J.Json>, depth: nat) returns (v: Coded<J.Json>)
      requires depth <= MAX_DEPTH
      modifies this
      ensures Took(ReadDefined(env, t, d, old(decoded), tag, depth), v)
      decreases MAX_DEPTH + 1 - depth, 4, 0
    {
      hide Read, ReadItems, ReadUnion, ReadFields, Symbolic, Projected, Counts;
      match d {
        case Alias(base, None) =>
          v := Convert(base, tag, depth + 1);
        case Alias(base, Some(n)) =>
          var items := ConvertItems(base, n, depth + 1);
          v := if items.Bad? then Bad(items.why) else Good(J.Arr(items.value));
        case Enumeration(base, values, flags) =>
          var numeric := Convert(base, None, depth + 1);
          v := if numeric.Bad? then numeric else Symbolic(values, flags, numeric.value);
        case Union(fields) =>
          v := ConvertUnion(t, fields, tag, depth);
        case Struct(fields) =>
          var members := ConvertFields(t, fields, tag, depth);
          v := if members.Bad? then Bad(members.why) else Projected(t, members.value - Counts(fields));
      }
    }

    method ConvertItems(t: Type, n: nat, depth: nat) returns (items: Coded<seq<J.Json>>)
      requires depth <= MAX_DEPTH + 1
      modifies this
      ensures Took(ReadItems(env, t, n, old(decoded), depth), items)
      decreases MAX_DEPTH + 1 - depth, 6, 0
    {
      hide Read;
      ghost var all := decoded;
      var done, i := [], 0;
      BehindNothing(ReadItems(env, t, n, all, depth));
      while i < n
        invariant i <= n
        invariant ReadItems(env, t, n, all, depth) == Behind(done, ReadItems(env, t, n - i, decoded, depth))
      {
        ghost var b := decoded;
        var item := Convert(t, None, depth);
        if item.Bad? {
          return Bad(item.why);
        }
        BehindTwice(done, item.value, ReadItems(env, t, n - i - 1, decoded, depth));
        done := done + [item.value];
        i := i + 1;
      }
      assert done + [] == done;
      return Good(done);
    }

    method ConvertUnion(t: Type, fields: seq<Field>, tag: Option<J.Json>, depth: nat) returns (v: Coded<J.Json>)
      requires depth <= MAX_DEPTH
      modifies this
      ensures Took(ReadUnion(env, t, fields, old(decoded), tag, depth), v)
      decreases MAX_DEPTH + 1 - depth, 3, 0
    {
      hide Read, FixedSize, Variable, MemberFor;
      var size := FixedSize(env.catalog, t, 0);
      if size < 0 || Variable(env.catalog, t, 0) {
        return Bad(Unsupported);
      }
      var member := MemberFor(fields, tag);
      if member.None? {
        return Bad(Unsupported);
      }
      if |decoded| < size {
        return Bad(InvalidReply);
      }
      var inner := new Decoder(env, decoded[..size]);
      var item := inner.Convert(member.value.type_, None, depth + 1);
      if item.Bad? {
        return Bad(item.why);
      }
      decoded := decoded[size..];
      return Good(J.Obj(map[member.value.name := item.value]));
    }

    method ConvertFields(t: Type, fields: seq<Field>, tag: Option<J.Json>, depth: nat) returns (members: Coded<Members>)
      requires depth <= MAX_DEPTH
      modifies this
      ensures Took(ReadFields(env, t, fields, 0, map[], tag, old(decoded), depth), members)
      decreases MAX_DEPTH + 1 - depth, 3, 0
    {
      hide ReadField;
      ghost var all := decoded;
      var i, done := 0, map[];
      while i < |fields|
        invariant i <= |fields|
        invariant ReadFields(env, t, fields, 0, map[], tag, all, depth)
             == ReadFields(env, t, fields, i, done, tag, decoded, depth)
      {
        var item := ConvertField(t, fields[i], done, tag, depth);
        if item.Bad? {
          return Bad(item.why);
        }
        done := done[fields[i].name := item.value];
        i := i + 1;
      }
      return Good(done);
    }

    method ConvertField(t: Type, f: Field, members: Members, tag: Option<J.Json>, depth: nat) returns (v: Coded<J.Json>)
      requires depth <= MAX_DEPTH
      modifies this
      ensures Took(ReadField(env, t, f, members, tag, old(decoded), depth), v)
      decreases MAX_DEPTH + 1 - depth, 2, 0
    {
      hide Read, ReadItems, ArrayCount, Chosen, UpToNul;
      if FixedText(f) {
        if f.length.value > PAYLOAD_BYTES {
          return Bad(InvalidParams);
        }
        var b := Bytes(f.length.value);
        v := if b.Bad? then Bad(b.why) else Good(J.Str(UpToNul(b.value)));
      } else if IsArray(f) {
        var count := ArrayCount(f, members);
        if count.Bad? {
          return Bad(count.why);
        }
        var items := ConvertItems(f.type_, count.value, depth + 1);
        v := if items.Bad? then Bad(items.why) else Good(J.Arr(items.value));
      } else {
        var chosen := Chosen(t, f, members, tag);
        if chosen.Bad? {
          return Bad(chosen.why);
        }
        v := Convert(f.type_, chosen.value, depth + 1);
      }
    }
  }

  lemma BehindNothing(more: Coded<(seq<J.Json>, Text)>)
    ensures Behind([], more) == more
  {
    match more
    case Good((items, _)) => assert [] + items == items;
    case Bad(_) =>
  }

  lemma BehindTwice(done: seq<J.Json>, item: J.Json, more: Coded<(seq<J.Json>, Text)>)
    ensures Behind(done, Behind([item], more)) == Behind(done + [item], more)
  {
    match more
    case Good((items, _)) => assert done + ([item] + items) == done + [item] + items;
    case Bad(_) =>
  }

  /** The public operations: a fresh buffer, and no bytes left over. */
  method RunEncode(env: Env, t: Type, v: J.Json) returns (b: Coded<Text>)
    ensures b == Encode(env, t, v)
  {
    hide Write;
    var encoder := new Encoder(env);
    var status := encoder.Convert(t, v, None, 0);
    OntoNothing(Encode(env, t, v));
    assert encoder.encoded == [] + encoder.encoded;
    b := if status.Some? then Bad(status.value) else Good(encoder.encoded);
  }

  method RunDecode(env: Env, t: Type, b: Text) returns (v: Coded<J.Json>)
    ensures v == Decode(env, t, b)
  {
    hide Read;
    var decoder := new Decoder(env, b);
    v := decoder.Convert(t, None, 0);
    if v.Good? && decoder.decoded != [] {
      v := Bad(InvalidReply);
    }
  }
}
