/** The scan that rejects deep nesting before the recursive parser runs. */
module Nesting {
  import opened Text
  import opened JsonText

  const MAX_DEPTH := 32

  /** Where the scan is: `exceeded` is the early return. */
  datatype Scanner = Scanner(depth: int, quoted: bool, escaped: bool, exceeded: bool)

  function Step(s: Scanner, c: byte): Scanner {
    if s.exceeded then s
    else if s.quoted then
      if s.escaped then s.(escaped := false)
      else if c == BACKSLASH then s.(escaped := true)
      else if c == QUOTE then s.(quoted := false)
      else s
    else if c == QUOTE then s.(quoted := true)
    else if c == OPEN_OBJECT || c == OPEN_ARRAY then s.(depth := s.depth + 1, exceeded := s.depth + 1 > MAX_DEPTH)
    else if c == CLOSE_OBJECT || c == CLOSE_ARRAY then s.(depth := s.depth - 1)
    else s
  }

  function Scan(s: Scanner, text: Text): Scanner
    decreases |text|
  {
    if text == [] then s else Scan(Step(s, text[0]), text[1..])
  }

  const START := Scanner(0, false, false, false)

  predicate Accepts(text: Text) { !Scan(START, text).exceeded }

  lemma {:induction false} ScanExceeded(s: Scanner, text: Text)
    requires s.exceeded
    ensures Scan(s, text) == s
    decreases |text|
  {
    if text != [] {
      ScanExceeded(s, text[1..]);
    }
  }

  lemma {:induction false} ScanConcat(s: Scanner, a: Text, b: Text)
    ensures Scan(s, a + b) == Scan(Scan(s, a), b)
    decreases |a|
  {
    if a == [] {
      assert a + b == b;
    } else {
      assert (a + b)[0] == a[0] && (a + b)[1..] == a[1..] + b;
      ScanConcat(Step(s, a[0]), a[1..], b);
    }
  }

  /** The loop of the original, with its early return. */
  method CheckNesting(text: Text) returns (ok: bool)
    ensures ok == Accepts(text)
  {
    var depth, quoted, escaped := 0, false, false;
    for i := 0 to |text|
      invariant depth <= MAX_DEPTH
      invariant Scan(START, text) == Scan(Scanner(depth, quoted, escaped, false), text[i..])
    {
      var c := text[i];
      assert text[i..][0] == c && text[i..][1..] == text[i + 1..];
      if quoted {
        if escaped {
          escaped := false;
        } else if c == BACKSLASH {
          escaped := true;
        } else if c == QUOTE {
          quoted := false;
        }
      } else if c == QUOTE {
        quoted := true;
      } else if c == OPEN_OBJECT || c == OPEN_ARRAY {
        depth := depth + 1;
        if depth > MAX_DEPTH {
          ScanExceeded(Scanner(depth, quoted, escaped, true), text[i + 1..]);
          return false;
        }
      } else if c == CLOSE_OBJECT || c == CLOSE_ARRAY {
        depth := depth - 1;
      }
    }
    return true;
  }

  // ---- On the text of a real value the scan measures structural depth ----

  predicate Outside(s: Scanner) { !s.quoted && !s.escaped && !s.exceeded }

  predicate InertByte(c: byte) {
    c != QUOTE && c != OPEN_OBJECT && c != OPEN_ARRAY && c != CLOSE_OBJECT && c != CLOSE_ARRAY
  }

  predicate Inert(text: Text) { forall c :: c in text ==> InertByte(c) }

  lemma {:induction false} ScanInert(s: Scanner, text: Text)
    requires Outside(s) && Inert(text)
    ensures Scan(s, text) == s
    decreases |text|
  {
    if text != [] {
      assert text[0] in text;
      assert forall c :: c in text[1..] ==> c in text;
      ScanInert(s, text[1..]);
    }
  }

  lemma ScanByteInString(s: Scanner, b: byte)
    requires s.quoted && !s.escaped && !s.exceeded
    ensures Scan(s, EscapeByte(b)) == s
  {
    var e := EscapeByte(b);
    if |e| == 2 {
      assert e[1..][1..] == [];
      assert Scan(s, e) == Scan(Step(Step(s, e[0]), e[1]), e[1..][1..]);
    } else if |e| == 6 {
      ScanPlainTail(s.(escaped := true), e[1..]);
      assert Step(s, e[0]) == s.(escaped := true);
    } else {
      assert e[1..] == [];
    }
  }

  /** An escaped byte, then four that close nothing. */
  lemma ScanPlainTail(s: Scanner, e: Text)
    requires s.quoted && s.escaped && !s.exceeded && |e| == 5
    requires forall i :: 1 <= i < 5 ==> e[i] != QUOTE && e[i] != BACKSLASH
    ensures Scan(s, e) == s.(escaped := false)
  {
    var t := s.(escaped := false);
    assert Step(s, e[0]) == t && Step(t, e[1]) == t && Step(t, e[2]) == t && Step(t, e[3]) == t && Step(t, e[4]) == t;
    var e1 := e[1..];
    var e2 := e1[1..];
    var e3 := e2[1..];
    var e4 := e3[1..];
    assert e1[0] == e[1] && e2[0] == e[2] && e3[0] == e[3] && e4[0] == e[4] && e4[1..] == [];
    assert Scan(t, e4) == t;
    assert Scan(t, e3) == t;
    assert Scan(t, e2) == t;
    assert Scan(t, e1) == t;
  }

  lemma {:induction false} ScanEscape(s: Scanner, text: Text)
    requires s.quoted && !s.escaped && !s.exceeded
    ensures Scan(s, Escape(text)) == s
    decreases |text|
  {
    if text != [] {
      ScanByteInString(s, text[0]);
      ScanConcat(s, EscapeByte(text[0]), Escape(text[1..]));
      ScanEscape(s, text[1..]);
    }
  }

  /** Whatever brackets, quotes or backslashes a string holds, it leaves the depth alone. */
  lemma ScanQuote(s: Scanner, text: Text)
    requires Outside(s)
    ensures Scan(s, Quote(text)) == s
  {
    var inside := s.(quoted := true);
    ScanConcat(s, [QUOTE] + Escape(text), [QUOTE]);
    ScanConcat(s, [QUOTE], Escape(text));
    assert Scan(s, [QUOTE]) == inside;
    ScanEscape(inside, text);
    assert Scan(inside, [QUOTE]) == s;
  }

  lemma DecimalInert(n: int)
    ensures Inert(Decimal(n))
  {
    assert forall b :: b in Decimal(n) ==> IsDigit(b) || b == 45;
  }

  /** What the scan does over a value, its first element or its whole list. */
  predicate Measures(s: Scanner, text: Text, fits: bool) {
    if fits then Scan(s, text) == s else Scan(s, text).exceeded
  }

  lemma MeasuresConcat(s: Scanner, a: Text, b: Text, fitsA: bool, fitsB: bool)
    requires Measures(s, a, fitsA) && Measures(s, b, fitsB)
    ensures Measures(s, a + b, fitsA && fitsB)
  {
    ScanConcat(s, a, b);
    if !fitsA {
      ScanExceeded(Scan(s, a), b);
    }
  }

  lemma MeasuresBracketed(s: Scanner, open: byte, body: Text, close: byte, fits: bool)
    requires Outside(s) && s.depth <= MAX_DEPTH
    requires open == OPEN_ARRAY || open == OPEN_OBJECT
    requires close == CLOSE_ARRAY || close == CLOSE_OBJECT
    requires s.depth < MAX_DEPTH ==> Measures(s.(depth := s.depth + 1), body, fits)
    ensures Measures(s, [open] + body + [close], s.depth < MAX_DEPTH && fits)
  {
    ScanConcat(s, [open] + body, [close]);
    ScanConcat(s, [open], body);
    var inner := Scan(s, [open]);
    assert inner == Step(s, open);
    if s.depth < MAX_DEPTH {
      if fits {
        assert Scan(inner, [close]) == s;
      } else {
        ScanExceeded(Scan(inner, body), [close]);
      }
    } else {
      ScanExceeded(inner, body);
      ScanExceeded(inner, [close]);
    }
  }

  ghost predicate ItemsFit(xs: seq<Json>, d: int) { forall x :: x in xs ==> NestsWithin(x, d) }

  ghost predicate MembersFit(j: Json, ks: seq<Text>, d: int)
    requires j.Obj? && forall k :: k in ks ==> k in j.m
  {
    forall k :: k in ks ==> NestsWithin(j.m[k], d)
  }

  lemma {:induction false} ScanDump(s: Scanner, j: Json)
    requires Outside(s) && s.depth <= MAX_DEPTH
    ensures Measures(s, Dump(j), NestsWithin(j, MAX_DEPTH - s.depth))
    decreases j, 1, 0
  {
    match j
    case Arr(xs) =>
      var inner := s.(depth := s.depth + 1);
      if s.depth < MAX_DEPTH {
        ScanItems(inner, xs);
      }
      ItemsNest(xs, MAX_DEPTH - s.depth);
      MeasuresBracketed(s, OPEN_ARRAY, DumpItems(xs), CLOSE_ARRAY, ItemsFit(xs, MAX_DEPTH - inner.depth));
    case Obj(m) =>
      var ks := Sorted(m.Keys);
      var inner := s.(depth := s.depth + 1);
      if s.depth < MAX_DEPTH {
        ScanMembers(inner, j, ks);
      }
      MembersNest(j, MAX_DEPTH - s.depth);
      MeasuresBracketed(s, OPEN_OBJECT, DumpMembers(j, ks), CLOSE_OBJECT, MembersFit(j, ks, MAX_DEPTH - inner.depth));
    case _ => ScanLeaf(s, j);
  }

  lemma ItemsNest(xs: seq<Json>, d: int)
    ensures NestsWithin(Arr(xs), d) <==> d >= 1 && ItemsFit(xs, d - 1)
  {
  }

  lemma MembersNest(j: Json, d: int)
    requires j.Obj?
    ensures NestsWithin(j, d) <==> d >= 1 && MembersFit(j, Sorted(j.m.Keys), d - 1)
  {
  }

  lemma ScanLeaf(s: Scanner, j: Json)
    requires Outside(s) && s.depth <= MAX_DEPTH && !j.Arr? && !j.Obj?
    ensures Measures(s, Dump(j), NestsWithin(j, MAX_DEPTH - s.depth))
  {
    hide Escape, Digits, Scan;
    match j
    case Str(text) => ScanQuote(s, text);
    case Float(whole, fraction, exponent) =>
      DecimalInert(whole);
      DecimalInert(exponent);
      ScanInert(s, Dump(j));
    case _ =>
      ScanInert(s, Dump(j));
  }

  lemma ScanSeparator(s: Scanner, c: byte)
    requires Outside(s) && (c == COMMA || c == COLON)
    ensures Measures(s, [c], true)
  {
  }

  lemma {:induction false} ScanItems(s: Scanner, xs: seq<Json>)
    requires Outside(s) && s.depth <= MAX_DEPTH
    ensures Measures(s, DumpItems(xs), ItemsFit(xs, MAX_DEPTH - s.depth))
    decreases xs, 0, 0
  {
    if xs != [] {
      var d := MAX_DEPTH - s.depth;
      ScanDump(s, xs[0]);
      if |xs| > 1 {
        ScanItems(s, xs[1..]);
        ScanSeparator(s, COMMA);
        MeasuresConcat(s, [COMMA], DumpItems(xs[1..]), true, ItemsFit(xs[1..], d));
        MeasuresConcat(s, Dump(xs[0]), [COMMA] + DumpItems(xs[1..]), NestsWithin(xs[0], d), ItemsFit(xs[1..], d));
      } else {
        assert DumpItems(xs) == Dump(xs[0]);
      }
      assert ItemsFit(xs, d) == (NestsWithin(xs[0], d) && ItemsFit(xs[1..], d));
    }
  }

  lemma {:induction false} ScanMembers(s: Scanner, j: Json, ks: seq<Text>)
    requires Outside(s) && s.depth <= MAX_DEPTH
    requires j.Obj? && forall k :: k in ks ==> k in j.m
    ensures Measures(s, DumpMembers(j, ks), MembersFit(j, ks, MAX_DEPTH - s.depth))
    decreases j, 0, |ks|
  {
    if ks != [] {
      var d := MAX_DEPTH - s.depth;
      var value := j.m[ks[0]];
      ScanQuote(s, ks[0]);
      ScanSeparator(s, COLON);
      ScanDump(s, value);
      MeasuresConcat(s, Quote(ks[0]), [COLON], true, true);
      MeasuresConcat(s, Quote(ks[0]) + [COLON], Dump(value), true, NestsWithin(value, d));
      var first := Quote(ks[0]) + [COLON] + Dump(value);
      if |ks| > 1 {
        ScanMembers(s, j, ks[1..]);
        ScanSeparator(s, COMMA);
        MeasuresConcat(s, [COMMA], DumpMembers(j, ks[1..]), true, MembersFit(j, ks[1..], d));
        MeasuresConcat(s, first, [COMMA] + DumpMembers(j, ks[1..]), NestsWithin(value, d), MembersFit(j, ks[1..], d));
      } else {
        assert DumpMembers(j, ks) == first;
      }
      assert MembersFit(j, ks, d) == (NestsWithin(value, d) && MembersFit(j, ks[1..], d));
    }
  }

  /** The guard accepts the text of a value exactly when the value nests at most
      32 deep, whatever its strings hold. */
  lemma NestingIsExact(j: Json)
    ensures Accepts(Dump(j)) <==> NestsWithin(j, MAX_DEPTH)
  {
    ScanDump(START, j);
  }
}
