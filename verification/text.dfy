/** Byte strings, as std::string and std::vector<uint8_t> hold them, and decimal text. */
module Text {

  newtype byte = x: int | 0 <= x < 256

  type Text = seq<byte>

  datatype Option<+T> = None | Some(value: T)

  const NEWLINE: byte := 10

  /** The bytes of a literal (every literal here is ASCII). */
  function Ascii(s: string): (t: Text)
    ensures |t| == |s|
    ensures forall i :: 0 <= i < |s| ==> t[i] as int == s[i] as int % 256
  {
    seq(|s|, i requires 0 <= i < |s| => (s[i] as int % 256) as byte)
  }

  predicate IsDigit(b: byte) { 48 <= b <= 57 }

  /** std::to_string of an unsigned number. */
  function Digits(n: nat): (t: Text)
    ensures t != [] && forall b :: b in t ==> IsDigit(b)
  {
    if n < 10 then [(48 + n) as byte] else Digits(n / 10) + [(48 + n % 10) as byte]
  }

  /** std::to_string of a signed number. */
  function Decimal(n: int): (t: Text)
    ensures t != []
  {
    if n < 0 then [45] + Digits(-n) else Digits(n)
  }

  /** The number a run of digits denotes. */
  function Value(t: Text): nat
    requires forall b :: b in t ==> IsDigit(b)
  {
    if t == [] then 0
    else
      assert IsDigit(t[|t| - 1]);
      Value(t[..|t| - 1]) * 10 + (t[|t| - 1] as int - 48)
  }

  lemma {:induction false} ValueOfDigits(n: nat)
    ensures Value(Digits(n)) == n
  {
    if n >= 10 {
      var d := Digits(n);
      assert d[..|d| - 1] == Digits(n / 10);
      ValueOfDigits(n / 10);
    } else {
      assert Digits(n)[..0] == [];
    }
  }

  function Pow10(k: nat): (p: nat)
    ensures p > 0
  {
    if k == 0 then 1 else 10 * Pow10(k - 1)
  }

  lemma {:induction false} DigitsLength(n: nat, k: nat)
    requires k > 0 && n < Pow10(k)
    ensures |Digits(n)| <= k
  {
    if n >= 10 {
      assert k > 1;
      DigitsLength(n / 10, k - 1);
    }
  }

  /** A 64-bit counter prints in at most twenty digits. */
  lemma Uint64Digits(n: nat)
    requires n < 0x1_0000_0000_0000_0000
    ensures |Digits(n)| <= 20
  {
    assert Pow10(10) == 10000000000 by { assert Pow10(5) == 100000; }
    assert Pow10(15) == 1000000000000000;
    assert Pow10(20) == 100000000000000000000;
    DigitsLength(n, 20);
  }

  // ---- Byte-wise lexicographic order, as std::map keeps its keys ----

  predicate Leq(a: Text, b: Text) {
    a == [] || (b != [] && (if a[0] == b[0] then Leq(a[1..], b[1..]) else a[0] < b[0]))
  }

  lemma {:induction false} LeqTotal(a: Text, b: Text)
    ensures Leq(a, b) || Leq(b, a)
  {
    if a != [] && b != [] {
      LeqTotal(a[1..], b[1..]);
    }
  }

  lemma {:induction false} LeqAntisymmetric(a: Text, b: Text)
    requires Leq(a, b) && Leq(b, a)
    ensures a == b
  {
    if a != [] && b != [] {
      LeqAntisymmetric(a[1..], b[1..]);
      assert a == [a[0]] + a[1..] && b == [b[0]] + b[1..];
    }
  }

  lemma {:induction false} LeqTransitive(a: Text, b: Text, c: Text)
    requires Leq(a, b) && Leq(b, c)
    ensures Leq(a, c)
  {
    if a != [] && b != [] && c != [] {
      if a[0] == b[0] == c[0] {
        LeqTransitive(a[1..], b[1..], c[1..]);
      }
    }
  }

  predicate IsLeast(k: Text, s: set<Text>) { k in s && forall x :: x in s ==> Leq(k, x) }

  lemma {:induction false} LeastExists(s: set<Text>) returns (k: Text)
    requires s != {}
    ensures IsLeast(k, s)
  {
    k :| k in s;
    LeqTotal(k, k);
    if s != {k} {
      var l := LeastExists(s - {k});
      LeqTotal(k, l);
      if Leq(k, l) {
        forall x | x in s ensures Leq(k, x) {
          if x != k {
            LeqTransitive(k, l, x);
          }
        }
      } else {
        k := l;
      }
    }
  }

  lemma LeastIsUnique(s: set<Text>)
    requires s != {}
    ensures exists k :: IsLeast(k, s)
    ensures forall k, l :: IsLeast(k, s) && IsLeast(l, s) ==> k == l
  {
    var least := LeastExists(s);
    forall k, l | IsLeast(k, s) && IsLeast(l, s) ensures k == l {
      LeqAntisymmetric(k, l);
    }
  }

  /** The keys of a set in order. */
  function Sorted(s: set<Text>): (ks: seq<Text>)
    ensures forall k :: k in ks <==> k in s
    ensures |ks| == |s|
  {
    if s == {} then []
    else
      LeastIsUnique(s);
      var k :| IsLeast(k, s);
      [k] + Sorted(s - {k})
  }
}
