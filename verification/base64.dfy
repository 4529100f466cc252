/** Base64 as section 4 of RFC 4648 defines it, and what its decoder owes. */
module Base64 {
  import opened Text

  const PAD: byte := 61

  function Letter(i: int): (c: byte)
    requires 0 <= i < 64
  {
    if i < 26 then (65 + i) as byte
    else if i < 52 then (71 + i) as byte
    else if i < 62 then (i - 4) as byte
    else if i == 62 then 43
    else 47
  }

  function Sextet(c: byte): (i: int)
    ensures 0 <= i < 64
  {
    if 65 <= c <= 90 then c as int - 65
    else if 97 <= c <= 122 then c as int - 71
    else if 48 <= c <= 57 then c as int + 4
    else if c == 43 then 62
    else if c == 47 then 63
    else 0
  }

  lemma SextetOfLetter(i: int)
    requires 0 <= i < 64
    ensures Sextet(Letter(i)) == i && Letter(i) != PAD
  {
  }

  /** Three bytes as four numbers of six bits, and back. */
  datatype Quad = Quad(s0: int, s1: int, s2: int, s3: int) {
    predicate Valid() { 0 <= s0 < 64 && 0 <= s1 < 64 && 0 <= s2 < 64 && 0 <= s3 < 64 }

    function Letters(): (t: Text)
      requires Valid()
      ensures |t| == 4
    {
      [Letter(s0), Letter(s1), Letter(s2), Letter(s3)]
    }

    function Join(): (b: Text)
      requires Valid()
      ensures |b| == 3
    {
      [(s0 * 4 + s1 / 16) as byte, (s1 % 16 * 16 + s2 / 4) as byte, (s2 % 4 * 64 + s3) as byte]
    }
  }

  function Split(b0: int, b1: int, b2: int): (q: Quad)
    requires 0 <= b0 < 256 && 0 <= b1 < 256 && 0 <= b2 < 256
    ensures q.Valid()
  {
    Quad(b0 / 4, b0 % 4 * 16 + b1 / 16, b1 % 16 * 4 + b2 / 64, b2 % 64)
  }

  function Read(t: Text): (q: Quad)
    requires |t| >= 4
    ensures q.Valid()
  {
    Quad(Sextet(t[0]), Sextet(t[1]), Sextet(t[2]), Sextet(t[3]))
  }

  lemma JoinOfSplit(b0: byte, b1: byte, b2: byte)
    ensures Split(b0 as int, b1 as int, b2 as int).Join() == [b0, b1, b2]
  {
    var q := Split(b0 as int, b1 as int, b2 as int);
    assert q.s1 / 16 == b0 as int % 4 && q.s1 % 16 == b1 as int / 16;
    assert q.s2 / 4 == b1 as int % 16 && q.s2 % 4 == b2 as int / 64;
  }

  lemma ReadOfLetters(q: Quad)
    requires q.Valid()
    ensures Read(q.Letters()) == q
    ensures forall c :: c in q.Letters() ==> c != PAD
  {
    SextetOfLetter(q.s0);
    SextetOfLetter(q.s1);
    SextetOfLetter(q.s2);
    SextetOfLetter(q.s3);
  }

  function EncodeTriple(b0: byte, b1: byte, b2: byte): (t: Text)
    ensures |t| == 4
  {
    Split(b0 as int, b1 as int, b2 as int).Letters()
  }

  lemma JoinOfEncodedTriple(b0: byte, b1: byte, b2: byte)
    ensures Read(EncodeTriple(b0, b1, b2)).Join() == [b0, b1, b2]
    ensures forall c :: c in EncodeTriple(b0, b1, b2) ==> c != PAD
  {
    ReadOfLetters(Split(b0 as int, b1 as int, b2 as int));
    JoinOfSplit(b0, b1, b2);
  }

  function Encode(b: Text): (t: Text)
    ensures |t| >= |b|
    decreases |b|
  {
    if |b| == 0 then []
    else if |b| == 1 then EncodeTriple(b[0], 0, 0)[..2] + [PAD, PAD]
    else if |b| == 2 then EncodeTriple(b[0], b[1], 0)[..3] + [PAD]
    else EncodeTriple(b[0], b[1], b[2]) + Encode(b[3..])
  }

  lemma {:induction false} EncodeLength(b: Text)
    ensures |Encode(b)| == 4 * ((|b| + 2) / 3)
    decreases |b|
  {
    hide EncodeTriple;
    if |b| > 2 {
      EncodeLength(b[3..]);
    }
  }

  function Decode(t: Text): Text
    decreases |t|
  {
    if |t| < 4 then []
    else
      var g := Read(t).Join();
      if t[3] == PAD then (if t[2] == PAD then g[..1] else g[..2])
      else g + Decode(t[4..])
  }

  lemma DecodeFull(full: Text, rest: Text)
    requires |full| == 4 && full[3] != PAD
    ensures Decode(full + rest) == Read(full).Join() + Decode(rest)
  {
    var t := full + rest;
    assert t[4..] == rest;
    assert Read(t) == Read(full);
  }

  lemma DecodePadded(full: Text, kept: int)
    requires |full| == 4 && (kept == 2 || (kept == 3 && full[2] != PAD))
    requires kept == 2 ==> Sextet(full[2]) == Sextet(PAD)
    requires Sextet(full[3]) == Sextet(PAD)
    ensures Decode(full[..kept] + [PAD, PAD][kept - 2..]) == Read(full).Join()[..kept - 1]
  {
    var t := full[..kept] + [PAD, PAD][kept - 2..];
    assert t[0] == full[0] && t[1] == full[1] && t[3] == PAD;
    assert t[2] == if kept == 2 then PAD else full[2];
    assert Read(t) == Read(full);
  }

  lemma DecodeShort(b0: byte, b1: byte, kept: int)
    requires kept == 3 || (kept == 2 && b1 == 0)
    ensures Decode(EncodeTriple(b0, b1, 0)[..kept] + [PAD, PAD][kept - 2..]) == [b0, b1][..kept - 1]
  {
    var full := EncodeTriple(b0, b1, 0);
    JoinOfEncodedTriple(b0, b1, 0);
    LastLettersOfZero(b0, b1);
    assert full[2] in full;
    DecodePadded(full, kept);
    assert [b0, b1, 0][..kept - 1] == [b0, b1][..kept - 1];
  }

  /** The sextets that padding replaces are zero, as the padding sign reads. */
  lemma LastLettersOfZero(b0: byte, b1: byte)
    ensures Sextet(EncodeTriple(b0, b1, 0)[3]) == Sextet(PAD)
    ensures b1 == 0 ==> Sextet(EncodeTriple(b0, b1, 0)[2]) == Sextet(PAD)
  {
  }

  lemma EncodeStep(b: Text)
    requires |b| > 2
    ensures Encode(b) == EncodeTriple(b[0], b[1], b[2]) + Encode(b[3..])
  {
    hide EncodeTriple;
  }

  lemma DecodeTriple(b: Text)
    requires |b| > 2
    ensures Decode(Encode(b)) == [b[0], b[1], b[2]] + Decode(Encode(b[3..]))
  {
    hide Encode, EncodeTriple, Decode, Read;
    var full := EncodeTriple(b[0], b[1], b[2]);
    JoinOfEncodedTriple(b[0], b[1], b[2]);
    assert full[3] in full;
    EncodeStep(b);
    DecodeFull(full, Encode(b[3..]));
  }

  /** Decoding inverts encoding, so distinct bytes never share an encoding. */
  lemma {:induction false} DecodeOfEncode(b: Text)
    ensures Decode(Encode(b)) == b
    decreases |b|
  {
    hide EncodeTriple;
    if |b| == 1 {
      DecodeShort(b[0], 0, 2);
      assert [PAD, PAD][0..] == [PAD, PAD] && [b[0], 0][..1] == b;
    } else if |b| == 2 {
      DecodeShort(b[0], b[1], 3);
      assert [PAD, PAD][1..] == [PAD] && [b[0], b[1]][..2] == b;
    } else if |b| > 2 {
      DecodeTriple(b);
      DecodeOfEncode(b[3..]);
      assert b == [b[0], b[1], b[2]] + b[3..];
    }
  }

  lemma EncodeInjective(a: Text, b: Text)
    requires Encode(a) == Encode(b)
    ensures a == b
  {
    DecodeOfEncode(a);
    DecodeOfEncode(b);
  }

  lemma TripleIsUnpadded(b0: byte, b1: byte, b2: byte)
    ensures EncodeTriple(b0, b1, b2)[2] != PAD && EncodeTriple(b0, b1, b2)[3] != PAD
  {
    JoinOfEncodedTriple(b0, b1, b2);
    assert EncodeTriple(b0, b1, b2)[2] in EncodeTriple(b0, b1, b2);
    assert EncodeTriple(b0, b1, b2)[3] in EncodeTriple(b0, b1, b2);
  }

  /** Bytes that fill up the last group of three. */
  function Filler(n: nat): Text { if n % 3 == 0 then [] else if n % 3 == 1 then [0, 0] else [0] }

  /** The padding signs among the last two letters, each tested on its own. */
  function Padding(t: Text): (n: nat)
    requires |t| >= 2
  {
    (if t[|t| - 1] == PAD then 1 else 0) + (if t[|t| - 2] == PAD then 1 else 0)
  }

  lemma PaddingOfTail(full: Text, rest: Text)
    requires |rest| >= 2
    ensures Padding(full + rest) == Padding(rest)
  {
  }

  lemma PaddingOfLast(b: Text)
    requires 1 <= |b| <= 3
    ensures |Encode(b)| == 4 && Padding(Encode(b)) == |Filler(|b|)|
  {
    hide EncodeTriple;
    if |b| == 1 {
      assert Encode(b) == EncodeTriple(b[0], 0, 0)[..2] + [PAD, PAD];
    } else if |b| == 2 {
      TripleIsUnpadded(b[0], b[1], 0);
      assert Encode(b) == EncodeTriple(b[0], b[1], 0)[..3] + [PAD];
    } else {
      TripleIsUnpadded(b[0], b[1], b[2]);
      assert Encode(b[3..]) == [];
      assert Encode(b) == EncodeTriple(b[0], b[1], b[2]) + [];
    }
  }

  /** The padding says how many bytes the last group lacks. */
  lemma {:induction false} EncodePadding(b: Text)
    requires b != []
    ensures |Encode(b)| >= 4 && Padding(Encode(b)) == |Filler(|b|)|
    decreases |b|
  {
    hide EncodeTriple, Padding;
    if |b| <= 3 {
      PaddingOfLast(b);
    } else {
      EncodePadding(b[3..]);
      assert |b| % 3 == |b[3..]| % 3;
      PaddingOfTail(EncodeTriple(b[0], b[1], b[2]), Encode(b[3..]));
    }
  }

  /** What is asked of a decoder: on a canonical text it returns the bytes, the
      last group filled up. On any other text it may return anything. */
  ghost predicate DecodesCanonical(decoder: Text -> Option<Text>) {
    forall b: Text {:trigger Encode(b)} :: b != [] ==> decoder(Encode(b)) == Some(b + Filler(|b|))
  }

  /** Letters, digits, plus, slash and the padding sign need no JSON escape. */
  predicate Printable(t: Text) { forall c :: c in t ==> 43 <= c <= 122 && c != 92 }

  lemma TriplePrintable(b0: byte, b1: byte, b2: byte)
    ensures Printable(EncodeTriple(b0, b1, b2))
  {
  }

  lemma {:induction false} EncodePrintable(b: Text)
    ensures Printable(Encode(b))
    decreases |b|
  {
    hide EncodeTriple;
    if |b| == 1 {
      TriplePrintable(b[0], 0, 0);
      assert forall c :: c in EncodeTriple(b[0], 0, 0)[..2] ==> c in EncodeTriple(b[0], 0, 0);
    } else if |b| == 2 {
      TriplePrintable(b[0], b[1], 0);
      assert forall c :: c in EncodeTriple(b[0], b[1], 0)[..3] ==> c in EncodeTriple(b[0], b[1], 0);
    } else if |b| > 2 {
      TriplePrintable(b[0], b[1], b[2]);
      EncodePrintable(b[3..]);
      EncodeStep(b);
    }
  }
}
