/** JSON values as the library holds them, their compact text, and their nesting. */
module JsonText {
  import opened Text

  /** A decimal fraction keeps its parts: only its spelling matters here. */
  datatype Json =
    | Null
    | Bool(b: bool)
    | Num(n: int)
    | Float(whole: int, fraction: nat, exponent: int)
    | Str(s: Text)
    | Arr(items: seq<Json>)
    | Obj(m: map<Text, Json>)

  const QUOTE: byte := 34
  const COMMA: byte := 44
  const COLON: byte := 58
  const OPEN_ARRAY: byte := 91
  const BACKSLASH: byte := 92
  const CLOSE_ARRAY: byte := 93
  const OPEN_OBJECT: byte := 123
  const CLOSE_OBJECT: byte := 125

  function Hex(n: int): byte
    requires 0 <= n < 16
  {
    if n < 10 then (48 + n) as byte else (87 + n) as byte
  }

  /** One byte inside a JSON string: quotes, backslashes and control bytes are
      escaped, everything else (UTF-8 continuation included) is copied. */
  function EscapeByte(b: byte): Text {
    if b == QUOTE || b == BACKSLASH then [BACKSLASH, b]
    else if b == 8 then [BACKSLASH, 98]
    else if b == 9 then [BACKSLASH, 116]
    else if b == 10 then [BACKSLASH, 110]
    else if b == 12 then [BACKSLASH, 102]
    else if b == 13 then [BACKSLASH, 114]
    else if b < 32 then [BACKSLASH, 117, 48, 48, Hex(b as int / 16), Hex(b as int % 16)]
    else [b]
  }

  function Escape(s: Text): Text {
    if s == [] then [] else EscapeByte(s[0]) + Escape(s[1..])
  }

  function Quote(s: Text): Text { [QUOTE] + Escape(s) + [QUOTE] }

  /** The compact text of a value; members come in key order. */
  function Dump(j: Json): Text
    decreases j, 1, 0
  {
    match j
    case Null => [110, 117, 108, 108]
    case Bool(b) => if b then [116, 114, 117, 101] else [102, 97, 108, 115, 101]
    case Num(n) => Decimal(n)
    case Float(whole, fraction, exponent) => Decimal(whole) + [46] + Digits(fraction) + [101] + Decimal(exponent)
    case Str(s) => Quote(s)
    case Arr(xs) => [OPEN_ARRAY] + DumpItems(xs) + [CLOSE_ARRAY]
    case Obj(m) => [OPEN_OBJECT] + DumpMembers(j, Sorted(m.Keys)) + [CLOSE_OBJECT]
  }

  function DumpItems(xs: seq<Json>): Text
    decreases xs, 0, 0
  {
    if xs == [] then [] else Dump(xs[0]) + (if |xs| == 1 then [] else [COMMA] + DumpItems(xs[1..]))
  }

  function DumpMembers(j: Json, ks: seq<Text>): Text
    requires j.Obj? && forall k :: k in ks ==> k in j.m
    decreases j, 0, |ks|
  {
    if ks == [] then []
    else Quote(ks[0]) + [COLON] + Dump(j.m[ks[0]]) + (if |ks| == 1 then [] else [COMMA] + DumpMembers(j, ks[1..]))
  }

  /** The value has at most `d` containers on any path from its root. */
  predicate NestsWithin(j: Json, d: int) {
    match j
    case Arr(xs) => d >= 1 && forall x :: x in xs ==> NestsWithin(x, d - 1)
    case Obj(m) => d >= 1 && forall k :: k in m ==> NestsWithin(m[k], d - 1)
    case _ => d >= 0
  }

  // ---- A compact text never holds a raw newline, so it fits on one line ----

  predicate OneLine(t: Text) { NEWLINE !in t }

  lemma {:induction false} EscapeOneLine(s: Text)
    ensures OneLine(Escape(s))
  {
    if s != [] {
      EscapeOneLine(s[1..]);
    }
  }

  lemma DecimalOneLine(n: int)
    ensures OneLine(Decimal(n))
  {
  }

  lemma {:induction false} DumpOneLine(j: Json)
    ensures OneLine(Dump(j))
    decreases j, 1, 0
  {
    hide Sorted, Escape, Digits;
    match j
    case Num(n) => DecimalOneLine(n);
    case Float(whole, fraction, exponent) => DecimalOneLine(whole); DecimalOneLine(exponent);
    case Str(s) => EscapeOneLine(s);
    case Arr(xs) => DumpItemsOneLine(xs);
    case Obj(m) => DumpMembersOneLine(j, Sorted(m.Keys));
    case _ =>
  }

  lemma {:induction false} DumpItemsOneLine(xs: seq<Json>)
    ensures OneLine(DumpItems(xs))
    decreases xs, 0, 0
  {
    if xs != [] {
      DumpOneLine(xs[0]);
      DumpItemsOneLine(xs[1..]);
    }
  }

  lemma {:induction false} DumpMembersOneLine(j: Json, ks: seq<Text>)
    requires j.Obj? && forall k :: k in ks ==> k in j.m
    ensures OneLine(DumpMembers(j, ks))
    decreases j, 0, |ks|
  {
    if ks != [] {
      EscapeOneLine(ks[0]);
      DumpOneLine(j.m[ks[0]]);
      DumpMembersOneLine(j, ks[1..]);
    }
  }

  // ---- The size of an object is the sum over its members, whatever their order ----

  /** Bytes of one member, its separator excluded. */
  ghost function MemberSize(m: map<Text, Json>, k: Text): nat
    requires k in m
  {
    |Quote(k)| + 1 + |Dump(m[k])|
  }

  ghost function TotalSize(m: map<Text, Json>, s: set<Text>): nat
    requires s <= m.Keys
  {
    if s == {} then 0 else var k :| k in s; MemberSize(m, k) + TotalSize(m, s - {k})
  }

  lemma {:induction false} TotalSizeTake(m: map<Text, Json>, s: set<Text>, k: Text)
    requires s <= m.Keys && k in s
    ensures TotalSize(m, s) == MemberSize(m, k) + TotalSize(m, s - {k})
  {
    var first :| first in s && TotalSize(m, s) == MemberSize(m, first) + TotalSize(m, s - {first});
    if first != k {
      TotalSizeTake(m, s - {first}, k);
      TotalSizeTake(m, s - {k}, first);
      assert s - {first} - {k} == s - {k} - {first};
    }
  }

  lemma {:induction false} TotalSizeAgrees(m: map<Text, Json>, n: map<Text, Json>, s: set<Text>)
    requires s <= m.Keys && s <= n.Keys
    requires forall k :: k in s ==> m[k] == n[k]
    ensures TotalSize(m, s) == TotalSize(n, s)
  {
    if s != {} {
      var k :| k in s;
      TotalSizeTake(m, s, k);
      TotalSizeTake(n, s, k);
      TotalSizeAgrees(m, n, s - {k});
    }
  }

  lemma {:induction false} MembersSize(j: Json, ks: seq<Text>, s: set<Text>)
    requires j.Obj? && s <= j.m.Keys && ks == Sorted(s)
    ensures |DumpMembers(j, ks)| == TotalSize(j.m, s) + (if s == {} then 0 else |s| - 1)
    decreases |ks|
  {
    if s != {} {
      var k := ks[0];
      assert ks[1..] == Sorted(s - {k});
      MembersSize(j, ks[1..], s - {k});
      TotalSizeTake(j.m, s, k);
    }
  }

  lemma ObjectSize(m: map<Text, Json>)
    ensures |Dump(Obj(m))| == 2 + TotalSize(m, m.Keys) + (if m.Keys == {} then 0 else |m.Keys| - 1)
  {
    hide Sorted, TotalSize;
    MembersSize(Obj(m), Sorted(m.Keys), m.Keys);
  }

  /** Adding a member adds its key, its value, a colon and, unless it is the first, a comma. */
  lemma InsertSize(m: map<Text, Json>, k: Text, v: Json)
    requires k !in m
    ensures |Dump(Obj(m[k := v]))| == |Dump(Obj(m))| + |Quote(k)| + 1 + |Dump(v)| + (if m == map[] then 0 else 1)
  {
    hide Dump, Sorted, TotalSize, Escape;
    var n := m[k := v];
    ObjectSize(m);
    ObjectSize(n);
    TotalSizeTake(n, n.Keys, k);
    assert n.Keys - {k} == m.Keys;
    TotalSizeAgrees(m, n, m.Keys);
    assert m.Keys == {} <==> m == map[];
  }
}
