/** Types that are not made of others: how a value is written, read, and spelled back. */
module Leaves {
  import opened Text
  import opened Catalogs
  import opened Integers
  import J = JsonText

  predicate IsInt(t: Type) { t == U8 || t == I8 || t == U16 || t == I16 || t == U32 || t == I32 }

  predicate IsLong(t: Type) { t == U64 || t == I64 }

  predicate Signed(t: Type) { t == I8 || t == I16 || t == I32 || t == I64 }

  /** Types of a known number of bytes. */
  predicate IsFixed(t: Type) {
    IsInt(t) || IsLong(t) || t == F32 || t == F64 || t == Boolean || t == Interface || t == Ip4 || t == Ip6 || t == Mac
  }

  predicate IsLeaf(t: Type) { IsFixed(t) || t == Characters }

  function NativeSize(t: Type): nat {
    match t
    case Interface | Ip4 => 4
    case Ip6 => 16
    case Mac => 6
    case _ => Width(t)
  }

  // ---- 64-bit numbers travel as decimal text ----

  predicate AllDigits(t: Text) { forall b :: b in t ==> IsDigit(b) }

  /** std::from_chars on the whole text: digits, with one minus sign if the type has a sign. */
  function Parsed(t: Text, signed: bool): Option<int> {
    if t != [] && AllDigits(t) then Some(Value(t))
    else if signed && |t| > 1 && t[0] == 45 && AllDigits(t[1..]) then Some(-(Value(t[1..]) as int))
    else None
  }

  lemma ParsedDecimal(n: int, signed: bool)
    requires signed || n >= 0
    ensures Parsed(Decimal(n), signed) == Some(n)
  {
    if n < 0 {
      ValueOfDigits(-n);
      assert Decimal(n)[1..] == Digits(-n);
      assert 45 in Decimal(n) by { assert Decimal(n)[0] == 45; }
    } else {
      ValueOfDigits(n);
    }
  }

  function LongOf(t: Type, v: J.Json): Option<int>
    requires IsLong(t)
  {
    if !v.Str? then None
    else
      match Parsed(v.s, Signed(t))
      case None => None
      case Some(n) => if InRange(n, 8, Signed(t)) then Some(n) else None
  }

  // ---- MAC addresses ----

  function HexOf(c: byte): Option<nat> {
    if 48 <= c <= 57 then Some(c as int - 48)
    else if 97 <= c <= 102 then Some(c as int - 87)
    else if 65 <= c <= 70 then Some(c as int - 55)
    else None
  }

  /** Two hex digits at each of six places, colons between them. */
  predicate IsMac(t: Text) {
    && |t| == 17
    && forall i :: 0 <= i < 6 ==>
        HexOf(t[3 * i]).Some? && HexOf(t[3 * i + 1]).Some? && (i < 5 ==> t[3 * i + 2] == J.COLON)
  }

  function MacByte(t: Text, i: nat): byte
    requires IsMac(t) && i < 6
  {
    HexBound(t[3 * i]);
    HexBound(t[3 * i + 1]);
    (16 * HexOf(t[3 * i]).value + HexOf(t[3 * i + 1]).value) as byte
  }

  lemma HexBound(c: byte)
    ensures HexOf(c).Some? ==> HexOf(c).value < 16
  {
  }

  function MacBytes(t: Text): (b: Text)
    requires IsMac(t)
    ensures |b| == 6
  {
    seq(6, i requires 0 <= i < 6 => MacByte(t, i))
  }

  /** Lower-case text. */
  function MacText(b: Text): (t: Text)
    requires |b| == 6
    ensures |t| == 17
  {
    seq(17, i requires 0 <= i < 17 =>
      var byte_ := b[i / 3] as int;
      if i % 3 == 0 then J.Hex(byte_ / 16) else if i % 3 == 1 then J.Hex(byte_ % 16) else J.COLON)
  }

  lemma HexOfHex(n: nat)
    requires n < 16
    ensures HexOf(J.Hex(n)) == Some(n)
  {
  }

  lemma MacTextParses(b: Text)
    requires |b| == 6
    ensures IsMac(MacText(b)) && MacBytes(MacText(b)) == b
  {
    var t := MacText(b);
    forall i | 0 <= i < 6
      ensures HexOf(t[3 * i]) == Some(b[i] as int / 16) && HexOf(t[3 * i + 1]) == Some(b[i] as int % 16)
      ensures i < 5 ==> t[3 * i + 2] == J.COLON
    {
      assert (3 * i) / 3 == i && (3 * i + 1) / 3 == i && (3 * i + 2) / 3 == i;
      assert (3 * i) % 3 == 0 && (3 * i + 1) % 3 == 1 && (3 * i + 2) % 3 == 2;
      HexOfHex(b[i] as int / 16);
      HexOfHex(b[i] as int % 16);
    }
    forall i | 0 <= i < 6 ensures MacBytes(t)[i] == b[i] {
    }
  }

  // ---- Interfaces ----

  const EVERY := 0xFFFF_FFFF

  function IndexOf(h: Host, v: J.Json): Coded<nat> {
    if !v.Str? then Bad(InvalidParams)
    else if v.s == ALL then Good(EVERY)
    else
      match h.indexOf(v.s)
      case None => Bad(NotFound)
      case Some(index) => Good(index % Pow256(4))
  }

  function NameOf(h: Host, index: nat): Coded<J.Json> {
    if index == EVERY then Good(J.Str(ALL))
    else
      match h.nameOf(index)
      case None => Bad(NotFound)
      case Some(name) => Good(J.Str(name))
  }

  // ---- The leaf codec ----

  function Bytes(b: Option<Text>): Coded<Text> { if b.Some? then Good(b.value) else Bad(InvalidParams) }

  /** What a C string shows of a text. */
  function UpToNul(t: Text): Text { if t == [] || t[0] == 0 then [] else [t[0]] + UpToNul(t[1..]) }

  lemma {:induction false} UpToNulHasNone(t: Text)
    ensures 0 !in UpToNul(t) && forall c :: c in UpToNul(t) ==> c in t
  {
    if t != [] && t[0] != 0 {
      UpToNulHasNone(t[1..]);
    }
  }

  lemma {:induction false} UpToNulOfWhole(t: Text, more: Text)
    requires 0 !in t
    ensures UpToNul(t) == t && UpToNul(t + [0] + more) == t
  {
    if t == [] {
      assert (t + [0] + more)[0] == 0;
    } else {
      var rest := t[1..];
      assert t[0] in t && forall c :: c in rest ==> c in t;
      UpToNulOfWhole(rest, more);
      assert (t + [0] + more)[0] == t[0] && (t + [0] + more)[1..] == rest + [0] + more;
      assert t == [t[0]] + rest;
    }
  }

  /** The platform is handed a C string, so it sees a text up to its first NUL. */
  function TextBytes(v: J.Json, parse: Text -> Option<Text>): Coded<Text> {
    if v.Str? then Bytes(parse(UpToNul(v.s))) else Bad(InvalidParams)
  }

  function WriteFixed(h: Host, t: Type, v: J.Json): Coded<Text>
    requires IsFixed(t)
  {
    if IsInt(t) then
      (if v.Num? && InRange(v.n, Width(t), Signed(t)) then Good(WriteInt(v.n, Width(t), Signed(t)))
       else Bad(InvalidParams))
    else if IsLong(t) then
      (match LongOf(t, v)
       case None => Bad(InvalidParams)
       case Some(n) => Good(WriteInt(n, 8, Signed(t))))
    else if t == F32 then Bytes(h.f32(v))
    else if t == F64 then Bytes(h.f64(v))
    else if t == Boolean then (if v.Bool? then Good([if v.b then 1 else 0]) else Bad(InvalidParams))
    else if t == Interface then
      (match IndexOf(h, v)
       case Bad(why) => Bad(why)
       case Good(index) => Good(Little(index, 4)))
    else if t == Ip4 then TextBytes(v, h.ip4)
    else if t == Ip6 then TextBytes(v, h.ip6)
    else if v.Str? && IsMac(v.s) then Good(MacBytes(v.s)) else Bad(InvalidParams)
  }

  function Spelled(t: Option<Text>): Coded<J.Json> { if t.Some? then Good(J.Str(t.value)) else Bad(InvalidReply) }

  function Finite(v: Option<J.Json>): Coded<J.Json> { if v.Some? then Good(v.value) else Bad(InvalidReply) }

  function ReadFixed(h: Host, t: Type, b: Text): Coded<J.Json>
    requires IsFixed(t) && |b| == NativeSize(t)
  {
    if IsInt(t) then Good(J.Num(ReadInt(b, Signed(t))))
    else if IsLong(t) then Good(J.Str(Decimal(ReadInt(b, Signed(t)))))
    else if t == F32 then Finite(h.f32Value(b))
    else if t == F64 then Finite(h.f64Value(b))
    else if t == Boolean then (if b[0] > 1 then Bad(InvalidReply) else Good(J.Bool(b[0] == 1)))
    else if t == Interface then NameOf(h, FromLittle(b))
    else if t == Ip4 then Spelled(h.ip4Text(b))
    else if t == Ip6 then Spelled(h.ip6Text(b))
    else Good(J.Str(MacText(b)))
  }

  // ---- What a value looks like after a round trip ----

  function OrElse<T>(o: Option<T>, otherwise: T): T { if o.Some? then o.value else otherwise }

  /** 64-bit numbers lose leading zeros, MAC addresses become lower case, other texts and
      numbers are spelled as the platform spells what it understood. */
  function CanonFixed(h: Host, t: Type, v: J.Json): J.Json
    requires IsFixed(t)
  {
    if IsInt(t) || t == Boolean then v
    else if IsLong(t) then (match LongOf(t, v) case None => v case Some(n) => J.Str(Decimal(n)))
    else if t == F32 then (match h.f32(v) case None => v case Some(b) => OrElse(h.f32Value(b), v))
    else if t == F64 then (match h.f64(v) case None => v case Some(b) => OrElse(h.f64Value(b), v))
    else if t == Interface then (match IndexOf(h, v) case Bad(_) => v case Good(index) => NameAgain(h, index, v))
    else if t == Ip4 then SpelledAgain(v, h.ip4, h.ip4Text)
    else if t == Ip6 then SpelledAgain(v, h.ip6, h.ip6Text)
    else if v.Str? && IsMac(v.s) then J.Str(MacText(MacBytes(v.s))) else v
  }

  function NameAgain(h: Host, index: nat, v: J.Json): J.Json {
    match NameOf(h, index) case Good(name) => name case Bad(_) => v
  }

  function SpelledAgain(v: J.Json, parse: Text -> Option<Text>, spell: Text -> Option<Text>): J.Json {
    if !v.Str? || parse(UpToNul(v.s)).None? || spell(parse(UpToNul(v.s)).value).None? then v
    else J.Str(spell(parse(UpToNul(v.s)).value).value)
  }

  // ---- What the platform owes ----

  /** What is written has this many bytes, can be read, and is written the same again. */
  ghost predicate Faithful(write: J.Json -> Option<Text>, read: Text -> Option<J.Json>, width: nat) {
    forall v :: write(v).Some? ==>
      && |write(v).value| == width && read(write(v).value).Some?
      && write(read(write(v).value).value) == write(v)
  }

  /** The same for C strings, which hold no NUL. */
  ghost predicate FaithfulText(parse: Text -> Option<Text>, spell: Text -> Option<Text>, width: nat) {
    forall t :: 0 !in t && parse(t).Some? ==>
      && |parse(t).value| == width && spell(parse(t).value).Some? && 0 !in spell(parse(t).value).value
      && parse(spell(parse(t).value).value) == parse(t)
  }

  /** An interface that is found has an index of its own and a name that finds it. */
  ghost predicate Resolves(h: Host) {
    forall t :: t != ALL && h.indexOf(t).Some? ==>
      var index := h.indexOf(t).value;
      index < EVERY && h.nameOf(index).Some? && h.nameOf(index).value != ALL
        && h.indexOf(h.nameOf(index).value) == Some(index)
  }

  ghost predicate Consistent(h: Host) {
    && Resolves(h) && Faithful(h.f32, h.f32Value, 4) && Faithful(h.f64, h.f64Value, 8)
    && FaithfulText(h.ip4, h.ip4Text, 4) && FaithfulText(h.ip6, h.ip6Text, 16)
  }

  /** Of the C strings that are addresses, exactly the IPv6 ones have a colon. */
  ghost predicate Telling(h: Host) {
    && (forall t :: 0 !in t && h.ip4(t).Some? ==> J.COLON !in t)
    && (forall t :: 0 !in t && h.ip6(t).Some? ==> J.COLON in t)
  }

  // ---- Round trips ----

  lemma IntRoundTrip(t: Type, n: int)
    requires (IsInt(t) || IsLong(t)) && InRange(n, Width(t), Signed(t))
    ensures ReadInt(WriteInt(n, Width(t), Signed(t)), Signed(t)) == n
  {
    WriteThenRead(n, Width(t), Signed(t));
  }

  /** An index that was found has a name that finds it. */
  lemma IndexAgain(h: Host, v: J.Json)
    requires Resolves(h) && IndexOf(h, v).Good?
    ensures var index := IndexOf(h, v).value;
            index < Pow256(4) && NameOf(h, index).Good? && IndexOf(h, NameOf(h, index).value) == Good(index)
  {
    hide Ascii;
    assert Pow256(4) == 0x1_0000_0000;
  }

  lemma InterfaceRoundTrip(h: Host, v: J.Json)
    requires Resolves(h) && WriteFixed(h, Interface, v).Good?
    ensures var b := WriteFixed(h, Interface, v).value;
            && |b| == NativeSize(Interface) && ReadFixed(h, Interface, b) == Good(CanonFixed(h, Interface, v))
            && WriteFixed(h, Interface, CanonFixed(h, Interface, v)) == Good(b)
  {
    hide Ascii, Resolves, IndexOf, NameOf, Little, FromLittle, Pow256;
    IndexAgain(h, v);
    LittleThenBack(IndexOf(h, v).value, 4);
  }

  /** A value that can be written has its native size; what was written reads as the
      canonical value, which is written the same. */
  lemma FixedRoundTrip(h: Host, t: Type, v: J.Json)
    requires Consistent(h) && IsFixed(t) && WriteFixed(h, t, v).Good?
    ensures var b := WriteFixed(h, t, v).value;
            && |b| == NativeSize(t) && ReadFixed(h, t, b) == Good(CanonFixed(h, t, v))
            && WriteFixed(h, t, CanonFixed(h, t, v)) == Good(b)
  {
    hide Resolves, Faithful, FaithfulText, WriteFixed, ReadFixed, CanonFixed, NativeSize;
    if IsInt(t) {
      ShortRoundTrip(h, t, v);
    } else if IsLong(t) {
      LongRoundTrip(h, t, v);
    } else if t == Interface {
      InterfaceRoundTrip(h, v);
    } else if t == Mac || t == Boolean {
      PlainRoundTrip(h, t, v);
    } else {
      PlatformRoundTrip(h, t, v);
    }
  }

  lemma ShortRoundTrip(h: Host, t: Type, v: J.Json)
    requires IsInt(t) && WriteFixed(h, t, v).Good?
    ensures var b := WriteFixed(h, t, v).value;
            && |b| == NativeSize(t) && ReadFixed(h, t, b) == Good(CanonFixed(h, t, v))
            && WriteFixed(h, t, CanonFixed(h, t, v)) == Good(b)
  {
    hide WriteInt, ReadInt, InRange;
    IntRoundTrip(t, v.n);
  }

  lemma PlainRoundTrip(h: Host, t: Type, v: J.Json)
    requires (t == Mac || t == Boolean) && WriteFixed(h, t, v).Good?
    ensures var b := WriteFixed(h, t, v).value;
            && |b| == NativeSize(t) && ReadFixed(h, t, b) == Good(CanonFixed(h, t, v))
            && WriteFixed(h, t, CanonFixed(h, t, v)) == Good(b)
  {
    hide MacBytes, MacText, IsMac;
    if t == Mac {
      MacTextParses(MacBytes(v.s));
    }
  }

  lemma PlatformRoundTrip(h: Host, t: Type, v: J.Json)
    requires Consistent(h) && (t == F32 || t == F64 || t == Ip4 || t == Ip6) && WriteFixed(h, t, v).Good?
    ensures var b := WriteFixed(h, t, v).value;
            && |b| == NativeSize(t) && ReadFixed(h, t, b) == Good(CanonFixed(h, t, v))
            && WriteFixed(h, t, CanonFixed(h, t, v)) == Good(b)
  {
    hide Resolves, UpToNul;
    if t == Ip4 || t == Ip6 {
      UpToNulHasNone(v.s);
      UpToNulOfWhole(CanonFixed(h, t, v).s, []);
    }
  }

  lemma LongRoundTrip(h: Host, t: Type, v: J.Json)
    requires IsLong(t) && WriteFixed(h, t, v).Good?
    ensures var b := WriteFixed(h, t, v).value;
            && |b| == NativeSize(t) && ReadFixed(h, t, b) == Good(CanonFixed(h, t, v))
            && WriteFixed(h, t, CanonFixed(h, t, v)) == Good(b)
  {
    hide Ascii, WriteInt, ReadInt, Parsed, Decimal;
    var n := LongOf(t, v).value;
    IntRoundTrip(t, n);
    ParsedDecimal(n, Signed(t));
  }

  // ---- Texts with a length in front ----

  const LENGTHS := 0x1_0000_0000

  /** The length is kept in 32 bits: of a longer text, only so much is sent. */
  function Kept(t: Text): (k: Text)
    ensures k <= t
  {
    t[..|t| % LENGTHS]
  }

  function WriteText(v: J.Json): Coded<Text> {
    if !v.Str? then Bad(InvalidParams)
    else if |Kept(v.s)| > PAYLOAD_BYTES then Bad(TooLarge)
    else Good(Little(|Kept(v.s)|, 4) + Kept(v.s))
  }

  function ReadText(b: Text): Coded<(J.Json, Text)> {
    if |b| < 4 then Bad(InvalidReply)
    else
      var size := FromLittle(b[..4]);
      if size > PAYLOAD_BYTES then Bad(TooLarge)
      else if |b| < 4 + size then Bad(InvalidReply)
      else Good((J.Str(b[4..4 + size]), b[4 + size..]))
  }

  lemma TextRoundTrip(v: J.Json, rest: Text)
    requires WriteText(v).Good?
    ensures ReadText(WriteText(v).value + rest) == Good((J.Str(Kept(v.s)), rest))
    ensures WriteText(J.Str(Kept(v.s))) == WriteText(v)
  {
    assert Pow256(4) == LENGTHS;
    var size := |Kept(v.s)|;
    LittleThenBack(size, 4);
    var all := WriteText(v).value + rest;
    assert all[..4] == Little(size, 4);
    assert all[4..4 + size] == Kept(v.s);
    assert all[4 + size..] == rest;
    assert Kept(Kept(v.s)) == Kept(v.s);
  }

  lemma ReadTextMore(b: Text, more: Text)
    requires ReadText(b).Good?
    ensures ReadText(b + more) == Good((ReadText(b).value.0, ReadText(b).value.1 + more))
  {
    hide FromLittle;
    assert (b + more)[..4] == b[..4];
    var size := FromLittle(b[..4]);
    assert (b + more)[4..4 + size] == b[4..4 + size];
    assert (b + more)[4 + size..] == b[4 + size..] + more;
  }

  // ---- Texts in a fixed number of bytes ----

  function Padded(t: Text, size: nat): (p: Text)
    requires |t| <= size
    ensures |p| == size
  {
    t + seq(size - |t|, _ => 0)
  }

  lemma {:induction false} UpToNulPadded(t: Text, size: nat)
    requires |t| < size && 0 !in t
    ensures UpToNul(Padded(t, size)) == t
  {
    var p := Padded(t, size);
    if t == [] {
      assert p[0] == 0;
    } else {
      assert p[0] == t[0] && t[0] in t;
      assert p[1..] == Padded(t[1..], size - 1);
      assert forall c :: c in t[1..] ==> c in t;
      UpToNulPadded(t[1..], size - 1);
      assert t == [t[0]] + t[1..];
    }
  }
}
