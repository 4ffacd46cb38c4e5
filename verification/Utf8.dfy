/** Byte strings that std::str::from_utf8 accepts: Table 3-7 of the Unicode Standard. */
module Utf8 {
  type Byte = x: int | 0 <= x < 256
  type Bytes = seq<Byte>

  type Row = seq<(int, int)>

  /** One row for each shape of a well-formed sequence: the range of every byte. */
  function RowAt(k: nat): Row {
    match k
    case 0 => [(0x00, 0x7F)]
    case 1 => [(0xC2, 0xDF), (0x80, 0xBF)]
    case 2 => [(0xE0, 0xE0), (0xA0, 0xBF), (0x80, 0xBF)]
    case 3 => [(0xE1, 0xEC), (0x80, 0xBF), (0x80, 0xBF)]
    case 4 => [(0xED, 0xED), (0x80, 0x9F), (0x80, 0xBF)]
    case 5 => [(0xEE, 0xEF), (0x80, 0xBF), (0x80, 0xBF)]
    case 6 => [(0xF0, 0xF0), (0x90, 0xBF), (0x80, 0xBF), (0x80, 0xBF)]
    case 7 => [(0xF1, 0xF3), (0x80, 0xBF), (0x80, 0xBF), (0x80, 0xBF)]
    case _ => [(0xF4, 0xF4), (0x80, 0x8F), (0x80, 0xBF), (0x80, 0xBF)]
  }

  predicate Matches(row: Row, b: Bytes) {
    |row| <= |b| && forall i | 0 <= i < |row| :: row[i].0 <= b[i] <= row[i].1
  }

  /** Length of the row among the first `k` that the head of `b` matches, or 0. */
  function HeadLength(b: Bytes, k: nat): (n: nat)
    ensures n <= |b|
  {
    if k == 0 then 0 else if Matches(RowAt(k - 1), b) then |RowAt(k - 1)| else HeadLength(b, k - 1)
  }

  predicate ValidUtf8(b: Bytes)
    decreases |b|
  {
    b == [] || (HeadLength(b, 9) > 0 && ValidUtf8(b[HeadLength(b, 9)..]))
  }

  type Text = b: Bytes | ValidUtf8(b) witness []

  // ---- the rows are the encodings of the Unicode scalar values ----

  /** A code point that is not a surrogate. */
  predicate Scalar(c: nat) {
    c < 0xD800 || 0xE000 <= c < 0x11_0000
  }

  /** The UTF-8 encoding form. */
  function Encoded(c: nat): Bytes
    requires Scalar(c)
  {
    if c < 0x80 then [c]
    else if c < 0x800 then [0xC0 + c / 64, 0x80 + c % 64]
    else if c < 0x1_0000 then [0xE0 + c / 4096, 0x80 + c / 64 % 64, 0x80 + c % 64]
    else [0xF0 + c / 262144, 0x80 + c / 4096 % 64, 0x80 + c / 64 % 64, 0x80 + c % 64]
  }

  predicate AllScalar(cs: seq<nat>) {
    forall i | 0 <= i < |cs| :: Scalar(cs[i])
  }

  function EncodedAll(cs: seq<nat>): Bytes
    requires AllScalar(cs)
  {
    if cs == [] then [] else Encoded(cs[0]) + EncodedAll(cs[1..])
  }

  /** The row that the head of `b` matches, if any; rows exclude each other. */
  lemma {:induction false} HeadRow(b: Bytes, k: nat)
    requires k <= 9
    ensures HeadLength(b, k) > 0 ==> exists r :: 0 <= r < k && Matches(RowAt(r), b) && HeadLength(b, k) == |RowAt(r)|
    ensures forall r | 0 <= r < k && Matches(RowAt(r), b) :: HeadLength(b, k) == |RowAt(r)|
  {
    if k > 0 {
      HeadRow(b, k - 1);
      forall r | 0 <= r < k - 1 && Matches(RowAt(r), b) ensures !Matches(RowAt(k - 1), b) {
        RowsApart(b, r, k - 1);
      }
    }
  }

  lemma RowsApart(b: Bytes, r: nat, k: nat)
    requires r < k < 9 && Matches(RowAt(r), b)
    ensures !Matches(RowAt(k), b)
  {
    assert b[0] <= RowAt(r)[0].1;
  }

  /** The scalar value of a matched row. */
  lemma Decoded(b: Bytes, r: nat) returns (c: nat)
    requires r < 9 && Matches(RowAt(r), b)
    ensures Scalar(c) && Encoded(c) == b[..|RowAt(r)|]
  {
    if r == 0 {
      c := b[0];
    } else if r == 1 {
      c := DecodedTwo(b);
    } else if r <= 5 {
      c := DecodedThree(b, r);
    } else {
      c := DecodedFour(b, r);
    }
  }

  lemma DecodedTwo(b: Bytes) returns (c: nat)
    requires Matches(RowAt(1), b)
    ensures Scalar(c) && Encoded(c) == b[..2]
  {
    assert RowAt(1)[0].0 <= b[0] <= RowAt(1)[0].1 && RowAt(1)[1].0 <= b[1] <= RowAt(1)[1].1;
    var x: int, y: int := b[0], b[1];
    c := (x - 0xC0) * 64 + (y - 0x80);
  }

  lemma DecodedThree(b: Bytes, r: nat) returns (c: nat)
    requires 2 <= r <= 5 && Matches(RowAt(r), b)
    ensures Scalar(c) && Encoded(c) == b[..3]
  {
    assert RowAt(r)[0].0 <= b[0] <= RowAt(r)[0].1;
    assert RowAt(r)[1].0 <= b[1] <= RowAt(r)[1].1 && RowAt(r)[2].0 <= b[2] <= RowAt(r)[2].1;
    var x: int, y: int, z: int := b[0], b[1], b[2];
    c := (x - 0xE0) * 4096 + (y - 0x80) * 64 + (z - 0x80);
  }

  /** The digits of a number to the base 64. */
  lemma SixBits(p: nat, q: nat, r: nat, s: nat)
    requires q < 64 && r < 64 && s < 64
    ensures var c := p * 262144 + q * 4096 + r * 64 + s;
      c % 64 == s && c / 64 % 64 == r && c / 4096 % 64 == q && c / 262144 == p
  {
    var c := p * 262144 + q * 4096 + r * 64 + s;
    assert c / 64 == p * 4096 + q * 64 + r;
    assert c / 4096 == p * 64 + q;
  }

  lemma DecodedFour(b: Bytes, r: nat) returns (c: nat)
    requires 6 <= r <= 8 && Matches(RowAt(r), b)
    ensures Scalar(c) && Encoded(c) == b[..4]
  {
    assert RowAt(r)[0].0 <= b[0] <= RowAt(r)[0].1 && RowAt(r)[1].0 <= b[1] <= RowAt(r)[1].1;
    assert RowAt(r)[2].0 <= b[2] <= RowAt(r)[2].1 && RowAt(r)[3].0 <= b[3] <= RowAt(r)[3].1;
    var w: int, x: int, y: int, z: int := b[0], b[1], b[2], b[3];
    c := (w - 0xF0) * 262144 + (x - 0x80) * 4096 + (y - 0x80) * 64 + (z - 0x80);
    SixBits(w - 0xF0, x - 0x80, y - 0x80, z - 0x80);
    assert r == 6 ==> x - 0x80 >= 16;
  }

  function RowOf(c: nat): nat
    requires Scalar(c)
  {
    if c < 0x80 then 0
    else if c < 0x800 then 1
    else if c < 0x1000 then 2
    else if c < 0xD000 then 3
    else if c < 0xE000 then 4
    else if c < 0x1_0000 then 5
    else if c < 0x4_0000 then 6
    else if c < 0x10_0000 then 7
    else 8
  }

  lemma EncodedMatches(c: nat, rest: Bytes)
    requires Scalar(c)
    ensures Matches(RowAt(RowOf(c)), Encoded(c) + rest) && |RowAt(RowOf(c))| == |Encoded(c)|
  {
    hide Encoded, RowOf, RowAt;
    EncodedFits(c);
    assert forall i | 0 <= i < |Encoded(c)| :: (Encoded(c) + rest)[i] == Encoded(c)[i];
  }

  lemma EncodedFits(c: nat)
    requires Scalar(c)
    ensures Matches(RowAt(RowOf(c)), Encoded(c)) && |RowAt(RowOf(c))| == |Encoded(c)|
  {
    if c < 0x1_0000 {
      ShortFits(c);
    } else {
      LongFits(c);
    }
  }

  lemma ShortFits(c: nat)
    requires Scalar(c) && c < 0x1_0000
    ensures Matches(RowAt(RowOf(c)), Encoded(c)) && |RowAt(RowOf(c))| == |Encoded(c)|
  {
  }

  lemma LongFits(c: nat)
    requires Scalar(c) && c >= 0x1_0000
    ensures Matches(RowAt(RowOf(c)), Encoded(c)) && |RowAt(RowOf(c))| == |Encoded(c)|
  {
  }

  /** A byte string is accepted if and only if it encodes a sequence of Unicode scalar values. */
  lemma ValidIff(b: Bytes)
    ensures ValidUtf8(b) <==> exists cs :: AllScalar(cs) && EncodedAll(cs) == b
  {
    if ValidUtf8(b) {
      var cs := DecodedAll(b);
    }
    if cs :| AllScalar(cs) && EncodedAll(cs) == b {
      EncodedIsValid(cs);
    }
  }

  lemma {:induction false} DecodedAll(b: Bytes) returns (cs: seq<nat>)
    requires ValidUtf8(b)
    ensures AllScalar(cs) && EncodedAll(cs) == b
    decreases |b|
  {
    hide Encoded, Matches, RowAt, Scalar;
    if b == [] {
      cs := [];
    } else {
      HeadRow(b, 9);
      var r :| 0 <= r < 9 && Matches(RowAt(r), b) && HeadLength(b, 9) == |RowAt(r)|;
      var c := Decoded(b, r);
      var more := DecodedAll(b[HeadLength(b, 9)..]);
      cs := [c] + more;
      assert cs[1..] == more;
      assert b == b[..|RowAt(r)|] + b[|RowAt(r)|..];
    }
  }

  lemma {:induction false} EncodedIsValid(cs: seq<nat>)
    requires AllScalar(cs)
    ensures ValidUtf8(EncodedAll(cs))
  {
    hide Encoded, Matches, RowAt, Scalar, RowOf;
    if cs != [] {
      var c, rest := cs[0], EncodedAll(cs[1..]);
      EncodedIsValid(cs[1..]);
      EncodedMatches(c, rest);
      RowInRange(c);
      HeadRow(Encoded(c) + rest, 9);
      EncodedLength(c);
      assert (Encoded(c) + rest)[|Encoded(c)|..] == rest;
    }
  }

  lemma RowInRange(c: nat)
    requires Scalar(c)
    ensures RowOf(c) < 9
  {
  }

  lemma EncodedLength(c: nat)
    requires Scalar(c)
    ensures 1 <= |Encoded(c)| <= 4
  {
  }
}
