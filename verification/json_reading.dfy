/** The printer is injective: there is a parser that reads back whatever it prints. */
module JsonReading {
  import opened Text
  import opened JsonText

  // ---- Numbers ----

  predicate NoDigit(t: Text) { t == [] || !IsDigit(t[0]) }

  lemma FirstOfRest(a: Text, b: Text, x: Text, y: Text)
    requires a + x == b + y && |b| < |a|
    ensures y != [] && y[0] in a
  {
    assert (b + y)[|b|] == (a + x)[|b|] == a[|b|];
  }

  lemma Cut(a: Text, b: Text, x: Text, y: Text)
    requires a + x == b + y && |a| == |b|
    ensures a == b && x == y
  {
    assert a == (a + x)[..|a|] == b;
    assert x == (a + x)[|a|..] == y;
  }

  lemma DigitsRead(m: nat, n: nat, x: Text, y: Text)
    requires Digits(m) + x == Digits(n) + y && NoDigit(x) && NoDigit(y)
    ensures m == n && x == y
  {
    hide Digits;
    var a, b := Digits(m), Digits(n);
    if |a| < |b| {
      FirstOfRest(b, a, y, x);
    } else if |b| < |a| {
      FirstOfRest(a, b, x, y);
    } else {
      Cut(a, b, x, y);
      ValueOfDigits(m);
      ValueOfDigits(n);
    }
  }

  lemma DigitsFirst(n: nat)
    ensures IsDigit(Digits(n)[0])
  {
    hide Digits;
    assert Digits(n)[0] in Digits(n);
  }

  lemma DecimalRead(m: int, n: int, x: Text, y: Text)
    requires Decimal(m) + x == Decimal(n) + y && NoDigit(x) && NoDigit(y)
    ensures m == n && x == y
  {
    hide Digits;
    DecimalFirst(m);
    DecimalFirst(n);
    assert Decimal(m)[0] == (Decimal(m) + x)[0] == (Decimal(n) + y)[0] == Decimal(n)[0];
    if m < 0 {
      Regroup([45], Digits(-m), x);
      Regroup([45], Digits(-n), y);
      Cut([45], [45], Digits(-m) + x, Digits(-n) + y);
      DigitsRead(-m, -n, x, y);
    } else {
      DigitsRead(m, n, x, y);
    }
  }

  lemma DecimalFirst(n: int)
    ensures Decimal(n)[0] == 45 <==> n < 0
    ensures n >= 0 ==> IsDigit(Decimal(n)[0])
  {
    hide Digits;
    DigitsFirst(if n < 0 then -n else n);
  }

  // ---- Texts ----

  lemma EscapeByteRead(a: byte, b: byte, x: Text, y: Text)
    requires EscapeByte(a) + x == EscapeByte(b) + y
    ensures a == b && x == y
  {
    var p, q := EscapeByte(a), EscapeByte(b);
    assert p[0] == (p + x)[0] == q[0];
    if |p| > 1 && |q| > 1 {
      assert p[1] == (p + x)[1] == q[1];
    }
    if |p| == 6 && |q| == 6 {
      assert p[4] == (p + x)[4] == q[4] && p[5] == (p + x)[5] == q[5];
      HexRead(a as int / 16, b as int / 16);
      HexRead(a as int % 16, b as int % 16);
    }
    assert x == (p + x)[|p|..] == (q + y)[|q|..] == y;
  }

  lemma HexRead(m: int, n: int)
    requires 0 <= m < 16 && 0 <= n < 16 && Hex(m) == Hex(n)
    ensures m == n
  {
  }

  lemma EscapeByteFirst(b: byte)
    ensures EscapeByte(b) != [] && EscapeByte(b)[0] != QUOTE
  {
  }

  lemma EscapeFirst(s: Text, x: Text)
    requires s != []
    ensures (Escape(s) + x)[0] != QUOTE
  {
    hide EscapeByte;
    EscapeByteFirst(s[0]);
  }

  lemma {:induction false} EscapeRead(s: Text, t: Text, x: Text, y: Text)
    requires Escape(s) + ([QUOTE] + x) == Escape(t) + ([QUOTE] + y)
    ensures s == t && x == y
  {
    hide EscapeByte;
    if s == [] && t == [] {
      Cut([QUOTE], [QUOTE], x, y) by {
        assert Escape(s) + ([QUOTE] + x) == [QUOTE] + x && Escape(t) + ([QUOTE] + y) == [QUOTE] + y;
      }
    } else if s == [] {
      EscapeFirst(t, [QUOTE] + y);
    } else if t == [] {
      EscapeFirst(s, [QUOTE] + x);
    } else {
      var u, v := Escape(s[1..]) + ([QUOTE] + x), Escape(t[1..]) + ([QUOTE] + y);
      Regroup(EscapeByte(s[0]), Escape(s[1..]), [QUOTE] + x);
      Regroup(EscapeByte(t[0]), Escape(t[1..]), [QUOTE] + y);
      EscapeByteRead(s[0], t[0], u, v);
      EscapeRead(s[1..], t[1..], x, y);
      assert s == [s[0]] + s[1..] && t == [t[0]] + t[1..];
    }
  }

  lemma Regroup(a: Text, b: Text, c: Text)
    ensures (a + b) + c == a + (b + c)
  {
  }

  lemma QuoteRead(s: Text, t: Text, x: Text, y: Text)
    requires Quote(s) + x == Quote(t) + y
    ensures s == t && x == y
  {
    hide Escape;
    assert Quote(s) + x == [QUOTE] + (Escape(s) + ([QUOTE] + x));
    assert Quote(t) + y == [QUOTE] + (Escape(t) + ([QUOTE] + y));
    Cut([QUOTE], [QUOTE], Escape(s) + ([QUOTE] + x), Escape(t) + ([QUOTE] + y));
    EscapeRead(s, t, x, y);
  }

  // ---- Values ----

  /** What may follow a value inside another one. */
  predicate Ends(t: Text) { t == [] || t[0] == COMMA || t[0] == CLOSE_ARRAY || t[0] == CLOSE_OBJECT }

  /** Which kinds start with this byte. */
  predicate Starts(j: Json, b: byte) {
    match j
    case Null => b == 110
    case Bool(v) => b == if v then 116 else 102
    case Num(_) => b == 45 || IsDigit(b)
    case Float(_, _, _) => b == 45 || IsDigit(b)
    case Str(_) => b == QUOTE
    case Arr(_) => b == OPEN_ARRAY
    case Obj(_) => b == OPEN_OBJECT
  }

  lemma FirstByte(j: Json)
    ensures Dump(j) != [] && Starts(j, Dump(j)[0])
  {
    hide Digits, Escape, DumpItems, DumpMembers, Sorted;
    assert forall k: nat :: IsDigit(Digits(k)[0]) by {
      forall k: nat ensures IsDigit(Digits(k)[0]) {
        assert Digits(k)[0] in Digits(k);
      }
    }
  }

  /** What follows the whole part of a number. */
  function Tail(j: Json): Text {
    if j.Float? then [46] + (Digits(j.fraction) + ([101] + Decimal(j.exponent))) else []
  }

  lemma NumberParts(j: Json, x: Text)
    requires j.Num? || j.Float?
    ensures Dump(j) + x == Decimal(if j.Num? then j.n else j.whole) + (Tail(j) + x)
  {
    hide Digits, Decimal;
  }

  lemma NumberRead(a: Json, b: Json, x: Text, y: Text)
    requires (a.Num? || a.Float?) && (b.Num? || b.Float?) && Dump(a) + x == Dump(b) + y && Ends(x) && Ends(y)
    ensures a == b && x == y
  {
    hide Digits, Decimal, Dump;
    var m, n := if a.Num? then a.n else a.whole, if b.Num? then b.n else b.whole;
    NumberParts(a, x);
    NumberParts(b, y);
    TailStarts(a, x);
    TailStarts(b, y);
    DecimalRead(m, n, Tail(a) + x, Tail(b) + y);
    if a.Float? && b.Float? {
      TailRead(a, b, x, y);
    }
  }

  lemma TailStarts(j: Json, x: Text)
    requires Ends(x)
    ensures NoDigit(Tail(j) + x)
    ensures j.Float? ==> Tail(j) + x != [] && (Tail(j) + x)[0] == 46
    ensures !j.Float? ==> Tail(j) + x == x
  {
    hide Digits, Decimal;
  }

  lemma TailParts(j: Json, x: Text)
    requires j.Float?
    ensures Tail(j) + x == [46] + (Digits(j.fraction) + ([101] + (Decimal(j.exponent) + x)))
  {
    hide Digits, Decimal;
    var f, e := Digits(j.fraction), Decimal(j.exponent);
    Regroup([46], f + ([101] + e), x);
    Regroup(f, [101] + e, x);
    Regroup([101], e, x);
  }

  lemma TailRead(a: Json, b: Json, x: Text, y: Text)
    requires a.Float? && b.Float? && Tail(a) + x == Tail(b) + y && Ends(x) && Ends(y)
    ensures a.fraction == b.fraction && a.exponent == b.exponent && x == y
  {
    hide Digits, Decimal;
    var u, v := [101] + (Decimal(a.exponent) + x), [101] + (Decimal(b.exponent) + y);
    TailParts(a, x);
    TailParts(b, y);
    Cut([46], [46], Digits(a.fraction) + u, Digits(b.fraction) + v);
    DigitsRead(a.fraction, b.fraction, u, v);
    Cut([101], [101], Decimal(a.exponent) + x, Decimal(b.exponent) + y);
    DecimalRead(a.exponent, b.exponent, x, y);
  }

  /** A printed value is recognised, whatever follows it. */
  lemma {:induction false} DumpRead(a: Json, b: Json, x: Text, y: Text)
    requires Dump(a) + x == Dump(b) + y && Ends(x) && Ends(y)
    ensures a == b && x == y
    decreases a, 1, 0
  {
    hide Digits, Decimal, Escape, DumpItems, DumpMembers, Sorted;
    FirstByte(a);
    FirstByte(b);
    assert Dump(a)[0] == (Dump(a) + x)[0] == (Dump(b) + y)[0] == Dump(b)[0];
    match a
    case Num(_) => NumberRead(a, b, x, y);
    case Float(_, _, _) => NumberRead(a, b, x, y);
    case Str(s) => QuoteRead(s, b.s, x, y);
    case Arr(xs) =>
      assert Dump(a) + x == [OPEN_ARRAY] + (DumpItems(xs) + ([CLOSE_ARRAY] + x));
      assert Dump(b) + y == [OPEN_ARRAY] + (DumpItems(b.items) + ([CLOSE_ARRAY] + y));
      Cut([OPEN_ARRAY], [OPEN_ARRAY], DumpItems(xs) + ([CLOSE_ARRAY] + x), DumpItems(b.items) + ([CLOSE_ARRAY] + y));
      ItemsRead(xs, b.items, x, y);
    case Obj(m) =>
      var ks, ls := Sorted(m.Keys), Sorted(b.m.Keys);
      assert Dump(a) + x == [OPEN_OBJECT] + (DumpMembers(a, ks) + ([CLOSE_OBJECT] + x));
      assert Dump(b) + y == [OPEN_OBJECT] + (DumpMembers(b, ls) + ([CLOSE_OBJECT] + y));
      Cut([OPEN_OBJECT], [OPEN_OBJECT], DumpMembers(a, ks) + ([CLOSE_OBJECT] + x),
          DumpMembers(b, ls) + ([CLOSE_OBJECT] + y));
      MembersRead(a, ks, b, ls, x, y);
      assert forall k :: k in m <==> k in ks;
      assert m == b.m;
    case Null => Cut(Dump(a), Dump(b), x, y);
    case Bool(_) => Cut(Dump(a), Dump(b), x, y);
  }

  /** What stands between the first element and what follows the array. */
  function AfterItem(xs: seq<Json>): Text
    requires xs != []
  {
    if |xs| == 1 then [] else [COMMA] + DumpItems(xs[1..])
  }

  lemma ItemsParts(xs: seq<Json>, x: Text)
    requires xs != []
    ensures DumpItems(xs) + ([CLOSE_ARRAY] + x) == Dump(xs[0]) + (AfterItem(xs) + ([CLOSE_ARRAY] + x))
    ensures Ends(AfterItem(xs) + ([CLOSE_ARRAY] + x))
    ensures (DumpItems(xs) + ([CLOSE_ARRAY] + x))[0] != CLOSE_ARRAY
  {
    hide Dump, DumpItems, AfterItem, Starts;
    FirstByte(xs[0]);
    assert !Starts(xs[0], CLOSE_ARRAY) by { NoValueStarts(xs[0]); }
    ItemsUnfold(xs);
    Regroup(Dump(xs[0]), AfterItem(xs), [CLOSE_ARRAY] + x);
    ItemEnds(xs, x);
  }

  lemma NoValueStarts(j: Json)
    ensures !Starts(j, CLOSE_ARRAY)
  {
  }

  lemma ItemEnds(xs: seq<Json>, x: Text)
    requires xs != []
    ensures Ends(AfterItem(xs) + ([CLOSE_ARRAY] + x))
  {
    hide DumpItems;
  }

  lemma ItemsUnfold(xs: seq<Json>)
    requires xs != []
    ensures DumpItems(xs) == Dump(xs[0]) + AfterItem(xs)
  {
    hide Dump;
  }

  lemma {:induction false} ItemsRead(xs: seq<Json>, ys: seq<Json>, x: Text, y: Text)
    requires DumpItems(xs) + ([CLOSE_ARRAY] + x) == DumpItems(ys) + ([CLOSE_ARRAY] + y)
    ensures xs == ys && x == y
    decreases xs, 0, 0
  {
    hide Dump, DumpItems;
    NoItems();
    if xs == [] && ys == [] {
      assert [] + ([CLOSE_ARRAY] + x) == [CLOSE_ARRAY] + x && [] + ([CLOSE_ARRAY] + y) == [CLOSE_ARRAY] + y;
      Cut([CLOSE_ARRAY], [CLOSE_ARRAY], x, y);
    } else if xs == [] {
      ItemsParts(ys, y);
    } else if ys == [] {
      ItemsParts(xs, x);
    } else {
      ItemsParts(xs, x);
      ItemsParts(ys, y);
      DumpRead(xs[0], ys[0], AfterItem(xs) + ([CLOSE_ARRAY] + x), AfterItem(ys) + ([CLOSE_ARRAY] + y));
      assert xs == [xs[0]] + xs[1..] && ys == [ys[0]] + ys[1..];
      AfterItems(xs, ys, x, y);
      if |xs| > 1 && |ys| > 1 {
        ItemsRead(xs[1..], ys[1..], x, y);
      }
    }
  }

  lemma NoItems()
    ensures DumpItems([]) == []
  {
  }

  /** Both arrays end here, or both go on. */
  lemma AfterItems(xs: seq<Json>, ys: seq<Json>, x: Text, y: Text)
    requires xs != [] && ys != [] && AfterItem(xs) + ([CLOSE_ARRAY] + x) == AfterItem(ys) + ([CLOSE_ARRAY] + y)
    ensures |xs| == 1 <==> |ys| == 1
    ensures |xs| == 1 ==> x == y
    ensures |xs| > 1 ==> DumpItems(xs[1..]) + ([CLOSE_ARRAY] + x) == DumpItems(ys[1..]) + ([CLOSE_ARRAY] + y)
  {
    hide DumpItems;
    var p, q := AfterItem(xs) + ([CLOSE_ARRAY] + x), AfterItem(ys) + ([CLOSE_ARRAY] + y);
    assert p[0] == if |xs| == 1 then CLOSE_ARRAY else COMMA;
    assert q[0] == if |ys| == 1 then CLOSE_ARRAY else COMMA;
    if |xs| == 1 {
      assert p == [CLOSE_ARRAY] + x && q == [CLOSE_ARRAY] + y;
      Cut([CLOSE_ARRAY], [CLOSE_ARRAY], x, y);
    } else {
      Regroup([COMMA], DumpItems(xs[1..]), [CLOSE_ARRAY] + x);
      Regroup([COMMA], DumpItems(ys[1..]), [CLOSE_ARRAY] + y);
      Cut([COMMA], [COMMA], DumpItems(xs[1..]) + ([CLOSE_ARRAY] + x), DumpItems(ys[1..]) + ([CLOSE_ARRAY] + y));
    }
  }

  function AfterMember(a: Json, ks: seq<Text>): Text
    requires a.Obj? && ks != [] && forall k :: k in ks ==> k in a.m
  {
    if |ks| == 1 then [] else [COMMA] + DumpMembers(a, ks[1..])
  }

  lemma MembersUnfold(a: Json, ks: seq<Text>, x: Text)
    requires a.Obj? && ks != [] && forall k :: k in ks ==> k in a.m
    ensures DumpMembers(a, ks) + ([CLOSE_OBJECT] + x)
         == Quote(ks[0]) + ([COLON] + (Dump(a.m[ks[0]]) + (AfterMember(a, ks) + ([CLOSE_OBJECT] + x))))
    ensures Ends(AfterMember(a, ks) + ([CLOSE_OBJECT] + x))
    ensures (DumpMembers(a, ks) + ([CLOSE_OBJECT] + x))[0] == QUOTE
  {
    hide Dump, Escape, DumpMembers, AfterMember;
    var q, v, more, end := Quote(ks[0]), Dump(a.m[ks[0]]), AfterMember(a, ks), [CLOSE_OBJECT] + x;
    MembersStep(a, ks);
    Regroup(q + [COLON] + v, more, end);
    Regroup(q + [COLON], v, more + end);
    Regroup(q, [COLON], v + (more + end));
    assert Ends(more + end) by { MoreEnds(a, ks, x); }
  }

  lemma MoreEnds(a: Json, ks: seq<Text>, x: Text)
    requires a.Obj? && ks != [] && forall k :: k in ks ==> k in a.m
    ensures Ends(AfterMember(a, ks) + ([CLOSE_OBJECT] + x))
  {
    hide DumpMembers;
  }

  lemma MembersStep(a: Json, ks: seq<Text>)
    requires a.Obj? && ks != [] && forall k :: k in ks ==> k in a.m
    ensures DumpMembers(a, ks) == Quote(ks[0]) + [COLON] + Dump(a.m[ks[0]]) + AfterMember(a, ks)
  {
    hide Dump, Quote;
  }

  lemma {:induction false} MembersRead(a: Json, ks: seq<Text>, b: Json, ls: seq<Text>, x: Text, y: Text)
    requires a.Obj? && b.Obj? && (forall k :: k in ks ==> k in a.m) && (forall k :: k in ls ==> k in b.m)
    requires DumpMembers(a, ks) + ([CLOSE_OBJECT] + x) == DumpMembers(b, ls) + ([CLOSE_OBJECT] + y)
    ensures ks == ls && x == y && forall k :: k in ks ==> a.m[k] == b.m[k]
    decreases a, 0, |ks|
  {
    hide Dump, Quote, DumpMembers;
    NoMembers(a, b);
    if ks == [] && ls == [] {
      assert [] + ([CLOSE_OBJECT] + x) == [CLOSE_OBJECT] + x && [] + ([CLOSE_OBJECT] + y) == [CLOSE_OBJECT] + y;
      Cut([CLOSE_OBJECT], [CLOSE_OBJECT], x, y);
    } else if ks == [] {
      MembersUnfold(b, ls, y);
    } else if ls == [] {
      MembersUnfold(a, ks, x);
    } else {
      MembersUnfold(a, ks, x);
      MembersUnfold(b, ls, y);
      var u, v := AfterMember(a, ks) + ([CLOSE_OBJECT] + x), AfterMember(b, ls) + ([CLOSE_OBJECT] + y);
      var p, q := Dump(a.m[ks[0]]) + u, Dump(b.m[ls[0]]) + v;
      QuoteRead(ks[0], ls[0], [COLON] + p, [COLON] + q);
      Cut([COLON], [COLON], p, q);
      DumpRead(a.m[ks[0]], b.m[ls[0]], u, v);
      assert ks == [ks[0]] + ks[1..] && ls == [ls[0]] + ls[1..];
      AfterMembers(a, ks, b, ls, x, y);
      if |ks| > 1 && |ls| > 1 {
        MembersRead(a, ks[1..], b, ls[1..], x, y);
      }
    }
  }

  lemma NoMembers(a: Json, b: Json)
    requires a.Obj? && b.Obj?
    ensures DumpMembers(a, []) == [] == DumpMembers(b, [])
  {
  }

  /** Both objects end here, or both go on. */
  lemma AfterMembers(a: Json, ks: seq<Text>, b: Json, ls: seq<Text>, x: Text, y: Text)
    requires a.Obj? && b.Obj? && (forall k :: k in ks ==> k in a.m) && (forall k :: k in ls ==> k in b.m)
    requires ks != [] && ls != []
    requires AfterMember(a, ks) + ([CLOSE_OBJECT] + x) == AfterMember(b, ls) + ([CLOSE_OBJECT] + y)
    ensures |ks| == 1 <==> |ls| == 1
    ensures |ks| == 1 ==> x == y
    ensures |ks| > 1 ==>
              DumpMembers(a, ks[1..]) + ([CLOSE_OBJECT] + x) == DumpMembers(b, ls[1..]) + ([CLOSE_OBJECT] + y)
  {
    hide DumpMembers;
    var p, q := AfterMember(a, ks) + ([CLOSE_OBJECT] + x), AfterMember(b, ls) + ([CLOSE_OBJECT] + y);
    assert p[0] == if |ks| == 1 then CLOSE_OBJECT else COMMA;
    assert q[0] == if |ls| == 1 then CLOSE_OBJECT else COMMA;
    if |ks| == 1 {
      assert p == [CLOSE_OBJECT] + x && q == [CLOSE_OBJECT] + y;
      Cut([CLOSE_OBJECT], [CLOSE_OBJECT], x, y);
    } else {
      Regroup([COMMA], DumpMembers(a, ks[1..]), [CLOSE_OBJECT] + x);
      Regroup([COMMA], DumpMembers(b, ls[1..]), [CLOSE_OBJECT] + y);
      Cut([COMMA], [COMMA], DumpMembers(a, ks[1..]) + ([CLOSE_OBJECT] + x),
          DumpMembers(b, ls[1..]) + ([CLOSE_OBJECT] + y));
    }
  }

  /** Different values have different texts. */
  lemma DumpInjective(a: Json, b: Json)
    requires Dump(a) == Dump(b)
    ensures a == b
  {
    hide Dump;
    assert Dump(a) + [] == Dump(b) + [];
    DumpRead(a, b, [], []);
  }

  /** What a faithful parser makes of a text. */
  ghost function Parse(t: Text): Option<Json> { if j: Json :| Dump(j) == t then Some(j) else None }

  lemma ParseOfDump(j: Json)
    ensures Parse(Dump(j)) == Some(j)
  {
    hide Dump;
    var k: Json :| Dump(k) == Dump(j) && Parse(Dump(j)) == Some(k);
    DumpInjective(k, j);
  }
}
